/** The formatter: layout decisions token by token over one growing output, proved to keep the
    tokens and comments of the source whatever the layout.
 */
module Formatter {
  import opened Wrappers
  import opened Lexer
  import opened Layouts
  import LosslessSource

  type Piece = LosslessSource.Piece

  datatype DelimiterKind = Parenthesis | Bracket | Brace | Angle

  datatype Delimiter = Delimiter(kind: DelimiterKind, empty: bool, baseIndent: nat, wrapped: bool)

  // ---------------------------------------------------------------- kinds of tokens

  predicate IsWordLike(kind: TokenType) {
    kind == Identifier || kind == Number || kind == String || kind.Keyword?
  }

  predicate IsBinaryOperator(kind: TokenType) {
    kind in {
      Plus, Minus, Star, Slash, PlusEqual, MinusEqual, StarEqual, SlashEqual, BangEqual, Equal, EqualEqual, Less,
      LessEqual, Greater, GreaterEqual, AmpersandAmpersand, Pipe, PipePipe, FatArrow}
  }

  predicate IsUnaryMinus(tokens: seq<Token>, index: nat)
    requires index < |tokens|
  {
    index == 0
    || IsBinaryOperator(tokens[index - 1].kind)
    || tokens[index - 1].kind in {LeftParen, LeftBracket, LeftBrace, Comma, Colon, Bang, Keyword("return")}
  }

  predicate RangesAreAdjacent(left: Token, right: Token) {
    left.end == right.start
  }

  predicate GenericCloseCanBeFollowedBy(kind: TokenType) {
    kind in {
      LeftParen, LeftBrace, Comma, RightParen, RightBracket, Colon, Equal, Semicolon, RightBrace, Dot, Greater}
  }

  predicate IsPunctuationWithoutLeadingSpace(kind: TokenType) {
    kind in {RightParen, RightBracket, RightBrace, Comma, Semicolon, Dot}
  }

  predicate CanFollowClosingBraceOnSameLine(kind: TokenType) {
    kind in {
      Keyword("else"), Semicolon, Comma, RightParen, RightBracket, RightBrace, Dot, LeftParen, LeftBracket}
    || IsBinaryOperator(kind)
  }

  predicate ShouldSpaceBeforeOpen(previous: TokenType) {
    previous in {
      Keyword("if"), Keyword("while"), Keyword("for"), Keyword("match"), Keyword("return"), Keyword("print")}
  }

  predicate ShouldSpaceBefore(lineStart: bool, previousToken: Option<TokenType>, kind: TokenType, genericAngle: bool) {
    if lineStart || previousToken.None? then false
    else
      var previous := previousToken.value;
      if IsPunctuationWithoutLeadingSpace(kind) then false
      else if kind == LeftParen || kind == LeftBracket then IsWordLike(previous) && ShouldSpaceBeforeOpen(previous)
      else if kind == LeftBrace then true
      else if genericAngle && (kind == Less || kind == Greater) then false
      else if previous == Dot || kind == Dot then false
      else if previous in {LeftParen, LeftBracket, LeftBrace} then false
      else if previous in {Colon, Comma, FatArrow} then true
      else if previous == Bang then false
      else if IsWordLike(previous) && IsWordLike(kind) then true
      else if IsWordLike(previous) && (kind == Bang || kind == Minus) then previous == Keyword("return")
      else previous == RightBrace && kind == Keyword("else")
  }

  // ------------------------------------------------------------------ generic angles

  /** `<` less `>` from `i` up to `j`. */
  function Depth(tokens: seq<Token>, i: nat, j: nat): int
    requires i <= j <= |tokens|
  {
    if j == i then 0
    else
      Depth(tokens, i, j - 1)
      + (if tokens[j - 1].kind == Less then 1 else if tokens[j - 1].kind == Greater then -1 else 0)
  }

  /** The `>` at `close` is the first one that brings the depth of the `<` at `i` back to zero. */
  predicate ClosesAt(tokens: seq<Token>, i: nat, close: nat) {
    && i < close < |tokens| && tokens[close].kind == Greater && Depth(tokens, i, close + 1) == 0
    && forall j :: i < j <= close ==> Depth(tokens, i, j) > 0
  }

  predicate CanStartGeneric(tokens: seq<Token>, i: nat)
    requires i < |tokens|
  {
    && i > 0 && tokens[i].kind == Less
    && var previous := tokens[i - 1].kind;
       || previous == Keyword("fun")
       || (&& previous != Keyword("operator")
           && (IsWordLike(previous) || previous in {RightBracket, RightParen, Greater})
           && RangesAreAdjacent(tokens[i - 1], tokens[i]))
  }

  predicate CanEndGeneric(tokens: seq<Token>, close: nat) {
    close + 1 < |tokens| ==> GenericCloseCanBeFollowedBy(tokens[close + 1].kind)
  }

  /** A matching pair of generic angles. */
  predicate GenericPair(tokens: seq<Token>, open: nat, close: nat) {
    open < |tokens| && CanStartGeneric(tokens, open) && ClosesAt(tokens, open, close) && CanEndGeneric(tokens, close)
  }

  ghost predicate GenericAngle(tokens: seq<Token>, k: nat) {
    (exists close: nat :: GenericPair(tokens, k, close)) || (exists open: nat :: GenericPair(tokens, open, k))
  }

  method FindClose(tokens: seq<Token>, i: nat) returns (close: Option<nat>)
    requires i < |tokens| && tokens[i].kind == Less
    ensures close.Some? ==> ClosesAt(tokens, i, close.value)
    ensures close.None? ==> forall c: nat :: !ClosesAt(tokens, i, c)
  {
    var depth, cursor := 0, i;
    while cursor < |tokens|
      invariant i <= cursor <= |tokens| && depth == Depth(tokens, i, cursor)
      invariant forall j :: i < j <= cursor ==> Depth(tokens, i, j) > 0
    {
      if tokens[cursor].kind == Less {
        depth := depth + 1;
      } else if tokens[cursor].kind == Greater {
        depth := depth - 1;
        if depth == 0 {
          return Some(cursor);
        }
      }
      cursor := cursor + 1;
    }
    return None;
  }

  /** Marks exactly the angles that belong to a generic pair. */
  method FindGenericAngles(tokens: seq<Token>) returns (angles: seq<bool>)
    ensures |angles| == |tokens| && forall k: nat :: k < |tokens| ==> (angles[k] <==> GenericAngle(tokens, k))
  {
    angles := seq(|tokens|, _ => false);
    var index := 0;
    while index < |tokens|
      invariant index <= |tokens| && |angles| == |tokens|
      invariant forall k: nat :: k < |tokens| ==> (angles[k] <==> FoundBelow(tokens, index, k))
    {
      var pair := None;
      if CanStartGeneric(tokens, index) {
        pair := FindClose(tokens, index);
        if pair.Some? && !CanEndGeneric(tokens, pair.value) {
          pair := None;
        }
      }
      FoundMore(tokens, index, pair);
      if pair.Some? {
        angles := angles[index := true][pair.value := true];
      }
      index := index + 1;
    }
  }

  /** The angle belongs to a generic pair that opens below `n`. */
  ghost predicate FoundBelow(tokens: seq<Token>, n: nat, k: nat) {
    || (k < n && exists close: nat :: GenericPair(tokens, k, close))
    || (exists open: nat :: open < n && GenericPair(tokens, open, k))
  }

  lemma FoundMore(tokens: seq<Token>, n: nat, pair: Option<nat>)
    requires n < |tokens|
    requires forall c: nat :: GenericPair(tokens, n, c) <==> pair == Some(c)
    ensures
      forall k: nat ::
        FoundBelow(tokens, n + 1, k) <==> FoundBelow(tokens, n, k) || (pair.Some? && (k == n || k == pair.value))
  {
    hide GenericPair;
    forall k: nat
      ensures FoundBelow(tokens, n + 1, k) <==> FoundBelow(tokens, n, k) || (pair.Some? && (k == n || k == pair.value))
    {
      if pair.Some? {
        assert GenericPair(tokens, n, pair.value);
      }
    }
  }

  // Which angles are generic, without the predicates above.

  function KindsIn(tokens: seq<Token>, i: nat, j: nat): seq<TokenType>
    requires i <= j <= |tokens|
  {
    seq(j - i, k requires 0 <= k < j - i => tokens[i + k].kind)
  }

  /** More `<` than `>` from `i` up to `j`. */
  predicate Open(tokens: seq<Token>, i: nat, j: nat)
    requires i <= j <= |tokens|
  {
    multiset(KindsIn(tokens, i, j))[Less] > multiset(KindsIn(tokens, i, j))[Greater]
  }

  predicate Even(tokens: seq<Token>, i: nat, j: nat)
    requires i <= j <= |tokens|
  {
    multiset(KindsIn(tokens, i, j))[Less] == multiset(KindsIn(tokens, i, j))[Greater]
  }

  lemma {:induction false} DepthCounts(tokens: seq<Token>, i: nat, j: nat)
    requires i <= j <= |tokens|
    ensures Depth(tokens, i, j) == multiset(KindsIn(tokens, i, j))[Less] as int - multiset(KindsIn(tokens, i, j))[Greater]
    decreases j
  {
    if i < j {
      DepthCounts(tokens, i, j - 1);
      assert KindsIn(tokens, i, j) == KindsIn(tokens, i, j - 1) + [tokens[j - 1].kind];
    }
  }

  /** A pair of generic angles is a `<` and the first `>` that evens it out.  Before the pair is `fun`, or
      directly in front of it a word other than `operator`, a closing bracket or parenthesis, or a `>`;
      behind it is nothing, or a kind that can follow a type. */
  lemma PairExactly(tokens: seq<Token>, open: nat, close: nat)
    ensures GenericPair(tokens, open, close) <==>
      && 0 < open < close < |tokens| && tokens[open].kind == Less && tokens[close].kind == Greater
      && Even(tokens, open, close + 1) && (forall j :: open < j <= close ==> Open(tokens, open, j))
      && (tokens[open - 1].kind == Keyword("fun")
          || (tokens[open - 1].end == tokens[open].start
              && match tokens[open - 1].kind
                 case Keyword(word) => word != "operator"
                 case Identifier => true
                 case Number => true
                 case String => true
                 case RightBracket => true
                 case RightParen => true
                 case Greater => true
                 case _ => false))
      && (close + 1 == |tokens|
          || match tokens[close + 1].kind
             case LeftParen => true
             case LeftBrace => true
             case RightParen => true
             case RightBracket => true
             case RightBrace => true
             case Comma => true
             case Colon => true
             case Semicolon => true
             case Dot => true
             case Equal => true
             case Greater => true
             case _ => false)
  {
    if open < close < |tokens| {
      DepthCounts(tokens, open, close + 1);
      forall j | open < j <= close ensures Open(tokens, open, j) <==> Depth(tokens, open, j) > 0 {
        DepthCounts(tokens, open, j);
      }
    }
  }

  // -------------------------------------------------------- what may stand next to what

  /** Operators that could run together with what stands before them; all of them get a space. */
  predicate RunsBack(kind: TokenType) {
    kind in {Equal, EqualEqual, FatArrow, Slash, SlashEqual, GreaterEqual, Pipe, PipePipe}
  }

  /** What the first character of a lexeme tells about its kind. */
  lemma FirstTells(b: Token)
    requires LexemeRight(b)
    ensures b.lexeme != ""
    ensures IsAlphaNumeric(b.lexeme[0]) ==> IsWordLike(b.kind)
    ensures b.lexeme[0] in {'=', '/', '|'} ==> RunsBack(b.kind)
    ensures b.lexeme[0] == '>' ==> b.kind == Greater || RunsBack(b.kind)
  {
    hide IsKeyword, WordEnd, NumberEnd, Find;
  }

  lemma ExtendsOnly(kind: TokenType, c: char)
    requires Extends(kind, c)
    ensures (IsWordLike(kind) && IsAlphaNumeric(c)) || c in {'=', '/', '|'} || (kind == Equal && c == '>')
  {
  }

  /** The lexemes that may stand next to one another without a blank. */
  lemma ApartKinds(a: Token, b: Token)
    requires LexemeRight(b) && !RunsBack(b.kind) && !(IsWordLike(a.kind) && IsWordLike(b.kind)) && !Arrow(a, b)
    ensures Apart(a, b)
  {
    hide IsAlphaNumeric, IsWordLike, LexemeRight, Extends, RunsBack;
    FirstTells(b);
    if Extends(a.kind, b.lexeme[0]) {
      ExtendsOnly(a.kind, b.lexeme[0]);
    }
  }

  /** The token may stand right behind the one before it. */
  predicate MayFollow(tokens: seq<Token>, index: nat)
    requires index < |tokens|
  {
    index > 0 ==> Apart(tokens[index - 1], tokens[index]) || Arrow(tokens[index - 1], tokens[index])
  }

  lemma FollowsByKind(tokens: seq<Token>, index: nat)
    requires index < |tokens| && LexemeRight(tokens[index]) && !RunsBack(tokens[index].kind)
    requires index > 0 ==> !(IsWordLike(tokens[index - 1].kind) && IsWordLike(tokens[index].kind))
    ensures MayFollow(tokens, index)
  {
    hide LexemeRight, RunsBack, IsWordLike, Apart;
    if index > 0 && !Arrow(tokens[index - 1], tokens[index]) {
      ApartKinds(tokens[index - 1], tokens[index]);
    }
  }

  /** The last segment of a settled layout is a blank or the last token. */
  lemma LastItem(segs: seq<Segment>)
    requires segs != [] && segs[|segs| - 1].Lexeme?
    ensures Items(segs).tokens != [] && Items(segs).tokens[|Items(segs).tokens| - 1] == segs[|segs| - 1].token
  {
    hide Items;
    var less := segs[..|segs| - 1];
    assert segs == less + [segs[|segs| - 1]];
    ItemsAdded(less, segs[|segs| - 1]);
  }

  predicate IsOperator(kind: TokenType) {
    kind == Bang || IsBinaryOperator(kind)
  }

  function KindBefore(tokens: seq<Token>, index: nat): Option<TokenType>
    requires index <= |tokens|
  {
    if index == 0 then None else Some(tokens[index - 1].kind)
  }

  /** Two words in a row are told apart by a space or a new line. */
  lemma WordFits(tokens: seq<Token>, index: nat, lineStart: bool, spaced: bool, genericAngle: bool)
    requires index < |tokens| && LexemeRight(tokens[index]) && IsWordLike(tokens[index].kind)
    requires spaced == ShouldSpaceBefore(lineStart, KindBefore(tokens, index), tokens[index].kind, genericAngle)
    ensures lineStart || spaced || MayFollow(tokens, index)
  {
    hide LexemeRight, MayFollow;
    if !lineStart && !spaced {
      FollowsByKind(tokens, index);
    }
  }

  /** Brackets, punctuation and generic angles never run together with what stands before them,
      except for a generic `>` behind `=`. */
  lemma PlainFits(tokens: seq<Token>, index: nat, genericAngle: bool)
    requires index < |tokens| && LexemeRight(tokens[index]) && !IsWordLike(tokens[index].kind)
    requires IsOperator(tokens[index].kind) ==> genericAngle && tokens[index].kind in {Less, Greater}
    ensures MayFollow(tokens, index)
  {
    hide LexemeRight, MayFollow;
    FollowsByKind(tokens, index);
  }

  // ------------------------------------------------------------------------ pieces

  predicate IsRightBrace(piece: Piece) {
    piece.TokenPiece? && piece.token.kind == RightBrace
  }

  predicate HasComment(pieces: seq<Piece>, i: nat, j: nat)
    requires i <= j <= |pieces|
  {
    exists k :: i <= k < j && LosslessSource.IsLineComment(pieces[k])
  }

  /** Whether only the closing brace, or nothing, follows an opening brace. */
  method BraceIsEmpty(pieces: seq<Piece>, current: nat, next: nat) returns (empty: bool)
    requires current < next <= |pieces|
    ensures
      empty
      == (next == |pieces| || (!HasComment(pieces, current + 1, next) && IsRightBrace(pieces[next])))
  {
    var hasComment := false;
    for k := current + 1 to next
      invariant hasComment == HasComment(pieces, current + 1, k)
    {
      if LosslessSource.IsLineComment(pieces[k]) {
        hasComment := true;
        break;
      }
    }
    empty := next == |pieces| || (!hasComment && IsRightBrace(pieces[next]));
  }

  /** Tokens with their lexemes and comments with their slashes. */
  predicate PieceRight(piece: Piece) {
    if piece.TokenPiece? then LexemeRight(piece.token)
    else piece.kind == LosslessSource.LineComment ==> IsComment(piece.text)
  }

  predicate PiecesRight(pieces: seq<Piece>) {
    forall k :: 0 <= k < |pieces| ==> PieceRight(pieces[k])
  }

  predicate QuestionFree(tokens: seq<Token>) {
    forall k :: 0 <= k < |tokens| ==> tokens[k].kind != Question
  }

  /** Where the tokens are among the pieces. */
  predicate Located(pieces: seq<Piece>, indexes: seq<nat>) {
    forall m: nat :: m < |indexes| ==> LocatedAt(pieces, indexes[m], m)
  }

  predicate LocatedAt(pieces: seq<Piece>, at: nat, m: nat) {
    at < |pieces| && |LosslessSource.TokensOf(pieces[..at])| == m
  }

  lemma {:induction false} TokensPrefix(pieces: seq<Piece>, a: nat, b: nat)
    requires a <= b <= |pieces|
    ensures LosslessSource.TokensOf(pieces[..a]) <= LosslessSource.TokensOf(pieces[..b])
    decreases b
  {
    hide LosslessSource.TokensOf;
    if a < b {
      TokensPrefix(pieces, a, b - 1);
      LosslessSource.TokensOfMore(pieces[..b - 1], pieces[b - 1]);
      assert pieces[..b] == pieces[..b - 1] + [pieces[b - 1]];
    }
  }

  lemma {:induction false} TrimmedLast(texts: seq<string>, text: string)
    ensures TrimmedAll(texts + [text]) == TrimmedAll(texts) + [Trimmed(text)]
  {
    hide Trimmed;
    if texts == [] {
      assert [text][1..] == [] && [] + [text] == [text];
    } else {
      TrimmedLast(texts[1..], text);
      assert (texts + [text])[1..] == texts[1..] + [text];
    }
  }

  /** The items of the first `k` pieces have been written. */
  predicate Handled(pieces: seq<Piece>, k: nat, tokens: seq<Token>, tokenIndex: nat, items: Held)
    requires k <= |pieces| && tokenIndex <= |tokens|
  {
    && LosslessSource.TokensOf(pieces[..k]) == tokens[..tokenIndex] == items.tokens
    && items.comments == TrimmedAll(LosslessSource.CommentsOf(pieces[..k]))
  }

  lemma NothingHandled(pieces: seq<Piece>, tokens: seq<Token>)
    ensures Handled(pieces, 0, tokens, 0, NOTHING)
  {
  }

  lemma PieceAdded(pieces: seq<Piece>, k: nat)
    requires k < |pieces|
    ensures
      var before, piece := LosslessSource.TokensOf(pieces[..k]), pieces[k];
      LosslessSource.TokensOf(pieces[..k + 1]) == if piece.TokenPiece? then before + [piece.token] else before
    ensures
      var before, piece := TrimmedAll(LosslessSource.CommentsOf(pieces[..k])), pieces[k];
      TrimmedAll(LosslessSource.CommentsOf(pieces[..k + 1]))
      == if LosslessSource.IsLineComment(piece) then before + [Trimmed(piece.text)] else before
  {
    hide LosslessSource.TokensOf, LosslessSource.CommentsOf, TrimmedAll, Trimmed;
    LosslessSource.TokensOfMore(pieces[..k], pieces[k]);
    LosslessSource.CommentsOfMore(pieces[..k], pieces[k]);
    TrimmedLast(LosslessSource.CommentsOf(pieces[..k]), pieces[k].text);
    assert pieces[..k + 1] == pieces[..k] + [pieces[k]];
    assert LosslessSource.TokensOf(pieces[..k]) + [] == LosslessSource.TokensOf(pieces[..k]);
  }

  lemma TokenNext(pieces: seq<Piece>, k: nat, tokens: seq<Token>, tokenIndex: nat, items: Held)
    requires k < |pieces| && tokenIndex <= |tokens| && Handled(pieces, k, tokens, tokenIndex, items)
    requires tokens == LosslessSource.TokensOf(pieces)
    requires pieces[k].TokenPiece? && PiecesRight(pieces) && QuestionFree(tokens)
    ensures tokenIndex < |tokens| && items.tokens == tokens[..tokenIndex]
    ensures LexemeRight(tokens[tokenIndex]) && tokens[tokenIndex].kind != Question
    ensures Handled(pieces, k + 1, tokens, tokenIndex + 1, Held(tokens[..tokenIndex + 1], items.comments, []))
  {
    hide LosslessSource.TokensOf, LosslessSource.CommentsOf, TrimmedAll, Trimmed, LexemeRight;
    PieceAdded(pieces, k);
    TokensPrefix(pieces, k + 1, |pieces|);
    assert pieces[..|pieces|] == pieces;
    var more := LosslessSource.TokensOf(pieces[..k + 1]);
    assert more == tokens[..|more|];
    assert PieceRight(pieces[k]);
    assert tokens[tokenIndex] == more[tokenIndex];
  }

  lemma AnyJoints(pieces: seq<Piece>, k: nat, tokens: seq<Token>, tokenIndex: nat, items: Held, joints: seq<bool>)
    requires k <= |pieces| && tokenIndex <= |tokens| && Handled(pieces, k, tokens, tokenIndex, items)
    ensures Handled(pieces, k, tokens, tokenIndex, items.(joints := joints))
  {
  }

  lemma CommentNext(pieces: seq<Piece>, k: nat, tokens: seq<Token>, tokenIndex: nat, items: Held)
    requires k < |pieces| && tokenIndex <= |tokens| && Handled(pieces, k, tokens, tokenIndex, items)
    requires LosslessSource.IsLineComment(pieces[k]) && PiecesRight(pieces)
    ensures IsComment(pieces[k].text)
    ensures Handled(pieces, k + 1, tokens, tokenIndex, With(items, Comment(pieces[k].text), false))
  {
    hide LosslessSource.TokensOf, LosslessSource.CommentsOf, TrimmedAll, Trimmed, IsComment;
    PieceAdded(pieces, k);
    assert PieceRight(pieces[k]);
  }

  lemma BlankNext(pieces: seq<Piece>, k: nat, tokens: seq<Token>, tokenIndex: nat, items: Held)
    requires k < |pieces| && tokenIndex <= |tokens| && Handled(pieces, k, tokens, tokenIndex, items)
    requires !pieces[k].TokenPiece? && !LosslessSource.IsLineComment(pieces[k])
    ensures Handled(pieces, k + 1, tokens, tokenIndex, items)
  {
    hide LosslessSource.TokensOf, LosslessSource.CommentsOf, TrimmedAll, Trimmed;
    PieceAdded(pieces, k);
  }

  lemma AllHandled(pieces: seq<Piece>, tokens: seq<Token>, tokenIndex: nat, items: Held)
    requires tokenIndex <= |tokens| && Handled(pieces, |pieces|, tokens, tokenIndex, items)
    requires tokens == LosslessSource.TokensOf(pieces)
    ensures items == Held(tokens, TrimmedAll(LosslessSource.CommentsOf(pieces)), items.joints) && tokenIndex == |tokens|
  {
    assert pieces[..|pieces|] == pieces;
  }

  // --------------------------------------------------------------- what stands directly behind what

  predicate EndsNewline(segs: seq<Segment>) {
    segs != [] && segs[|segs| - 1] == Blank('\n')
  }

  /** The last lexeme, perhaps with one space behind it. */
  predicate Near(segs: seq<Segment>) {
    Behind(segs) || (|segs| > 1 && segs[|segs| - 1] == Blank(' ') && Behind(segs[..|segs| - 1]))
  }

  /** The formatter puts nothing between these two kinds. */
  predicate Pulls(before: TokenType, kind: TokenType, genericAngle: bool) {
    || (before == Number && kind == Dot) || (before == Dot && kind == Number)
    || (before == Equal && kind == Greater && genericAngle)
  }

  /** A comment keeps tokens apart, and so does the space before an operator; some kinds are pulled together. */
  predicate JointRight(tokens: seq<Token>, severed: seq<bool>, angles: seq<bool>, joints: seq<bool>, i: nat)
    requires i < |joints| <= |tokens| == |severed| == |angles|
  {
    && (severed[i] ==> !joints[i])
    && (i > 0 && Arrow(tokens[i - 1], tokens[i]) && !angles[i] ==> !joints[i])
    && (i > 0 && !severed[i] && Pulls(tokens[i - 1].kind, tokens[i].kind, angles[i]) ==> joints[i])
  }

  predicate JointsRight(tokens: seq<Token>, severed: seq<bool>, angles: seq<bool>, joints: seq<bool>) {
    && |joints| <= |tokens| == |severed| == |angles|
    && forall i: nat :: i < |joints| ==> JointRight(tokens, severed, angles, joints, i)
  }

  lemma JointsMore(tokens: seq<Token>, severed: seq<bool>, angles: seq<bool>, joints: seq<bool>, joint: bool)
    requires JointsRight(tokens, severed, angles, joints) && |joints| < |tokens|
    requires JointRight(tokens, severed, angles, joints + [joint], |joints|)
    ensures JointsRight(tokens, severed, angles, joints + [joint])
  {
    hide Pulls, Arrow;
    var more := joints + [joint];
    forall i: nat | i < |more| ensures JointRight(tokens, severed, angles, more, i) {
      if i < |joints| {
        assert JointRight(tokens, severed, angles, joints, i);
      }
    }
  }

  lemma {:induction false} SeveredPrefix(pieces: seq<Piece>, a: nat, b: nat)
    requires a <= b <= |pieces|
    ensures LosslessSource.SeveredOf(pieces[..a]) <= LosslessSource.SeveredOf(pieces[..b])
    decreases b
  {
    hide LosslessSource.SeveredOf, LosslessSource.CommentPending;
    if a < b {
      SeveredPrefix(pieces, a, b - 1);
      LosslessSource.SeveredMore(pieces[..b - 1], pieces[b - 1]);
      assert pieces[..b] == pieces[..b - 1] + [pieces[b - 1]];
    }
  }

  lemma {:induction false} SeveredCount(pieces: seq<Piece>)
    ensures |LosslessSource.SeveredOf(pieces)| == |LosslessSource.TokensOf(pieces)|
  {
    if pieces != [] {
      SeveredCount(pieces[..|pieces| - 1]);
    }
  }

  /** Whether the token of piece `k` is severed from the one before. */
  lemma SeveredAt(pieces: seq<Piece>, k: nat, tokens: seq<Token>, tokenIndex: nat, items: Held)
    requires k < |pieces| && pieces[k].TokenPiece? && tokenIndex < |tokens| && Handled(pieces, k, tokens, tokenIndex, items)
    requires tokens == LosslessSource.TokensOf(pieces)
    ensures
      var severed := LosslessSource.SeveredOf(pieces);
      |severed| == |tokens| && severed[tokenIndex] == LosslessSource.CommentPending(pieces[..k])
    ensures !LosslessSource.CommentPending(pieces[..k + 1])
  {
    hide LosslessSource.SeveredOf, LosslessSource.TokensOf, LosslessSource.CommentsOf, LosslessSource.CommentPending;
    SeveredCount(pieces);
    SeveredCount(pieces[..k]);
    LosslessSource.SeveredMore(pieces[..k], pieces[k]);
    assert pieces[..k + 1] == pieces[..k] + [pieces[k]];
    SeveredPrefix(pieces, k + 1, |pieces|);
    assert pieces[..|pieces|] == pieces;
    assert LosslessSource.SeveredOf(pieces[..k + 1])[tokenIndex] == LosslessSource.CommentPending(pieces[..k]);
  }

  lemma PendingNext(pieces: seq<Piece>, k: nat)
    requires k < |pieces| && !pieces[k].TokenPiece?
    ensures
      LosslessSource.CommentPending(pieces[..k + 1])
      == (LosslessSource.IsLineComment(pieces[k]) || LosslessSource.CommentPending(pieces[..k]))
  {
    hide LosslessSource.SeveredOf, LosslessSource.CommentPending;
    LosslessSource.SeveredMore(pieces[..k], pieces[k]);
    assert pieces[..k + 1] == pieces[..k] + [pieces[k]];
  }

  /** The next token's piece comes after the current one. */
  lemma NextLater(
      pieces: seq<Piece>, indexes: seq<nat>, k: nat, tokens: seq<Token>, tokenIndex: nat,
      items: Held)
    requires k < |pieces| && tokenIndex < |tokens| && Handled(pieces, k, tokens, tokenIndex, items)
    requires Located(pieces, indexes) && tokenIndex + 1 < |indexes|
    ensures k < indexes[tokenIndex + 1] <= |pieces|
  {
    hide LosslessSource.TokensOf, LosslessSource.CommentsOf, TrimmedAll;
    var next := indexes[tokenIndex + 1];
    assert LocatedAt(pieces, next, tokenIndex + 1);
    if next <= k {
      TokensPrefix(pieces, next, k);
    }
  }

  lemma NoJoints(pieces: seq<Piece>, tokens: seq<Token>, angles: seq<bool>)
    requires tokens == LosslessSource.TokensOf(pieces) && |angles| == |tokens|
    ensures JointsRight(tokens, LosslessSource.SeveredOf(pieces), angles, NOTHING.joints)
    ensures !LosslessSource.CommentPending(pieces[..0])
  {
    SeveredCount(pieces);
  }

  lemma WithComment(items: Held, text: string)
    ensures With(items, Comment(text), false).joints == items.joints
  {
  }

  /** The space that `Near` allows is at the end of the text, and no lexeme ends with one. */
  lemma NoSpaceAtEnd(segs: seq<Segment>)
    requires Laid(segs)
    ensures Behind(segs) ==> TextOf(segs) != "" && !EndsWith(TextOf(segs), ' ') && !EndsWith(TextOf(segs), '\n')
    ensures EndsNewline(segs) ==> !EndsWith(TextOf(segs), ' ')
    ensures Near(segs) && !Behind(segs) && segs != [] ==> Near(Shorter(segs))
  {
    hide TextOf, Laid, LexemeRight;
    if segs != [] {
      LaidLess(segs);
      LastText(segs);
      if segs[|segs| - 1].Lexeme? {
        LexemeFilled(segs[|segs| - 1].token);
        LexemeEnd(segs[|segs| - 1].token);
      }
    }
  }

  lemma SpaceAtEnd(segs: seq<Segment>)
    requires Near(segs) && !EndsWith(TextOf(segs), ' ')
    ensures Behind(segs)
  {
    hide TextOf;
    LastText(segs);
  }

  lemma NewlineText(segs: seq<Segment>)
    requires EndsNewline(segs)
    ensures TextOf(segs) != ""
  {
    hide TextOf;
    LastText(segs);
  }

  lemma KindFacts(kind: TokenType)
    ensures kind == Number ==> IsWordLike(kind)
    ensures kind == Dot ==> !IsWordLike(kind) && !IsOperator(kind)
    ensures kind == Greater || kind == Equal ==> !IsWordLike(kind) && IsOperator(kind)
  {
  }

  lemma EndFacts(segs: seq<Segment>)
    ensures EndsNewline(segs) ==> !Behind(segs)
    ensures Behind(segs) ==> Near(segs)
  {
  }

  lemma PullsUnspaced(before: TokenType, kind: TokenType, genericAngle: bool)
    requires Pulls(before, kind, genericAngle)
    ensures !ShouldSpaceBefore(false, Some(before), kind, genericAngle)
  {
  }

  lemma PulledKinds(before: TokenType, kind: TokenType, genericAngle: bool)
    requires Pulls(before, kind, genericAngle)
    ensures kind == Dot || kind == Number || (kind == Greater && genericAngle)
  {
  }

  lemma StartUnspaced(previous: Option<TokenType>, kind: TokenType, genericAngle: bool)
    ensures !ShouldSpaceBefore(true, previous, kind, genericAngle)
  {
  }

  // --------------------------------------------------------------------- the state

  class FormatterState {
    const indentWidth: nat
    /** Whether the list that a token opens is wrapped, given the output so far. */
    const wraps: (string, nat) -> bool
    var output: string
    var indent: nat
    var lineStart: bool
    var pendingLineBreak: bool
    var pendingClose: bool
    var sourceNewlineSinceLastItem: bool
    var sourceBlankLineSinceLastItem: bool
    var inForHeader: bool
    var delimiters: seq<Delimiter>
    var previous: Option<TokenType>
    ghost var segs: seq<Segment>

    constructor (indentWidth: nat, wraps: (string, nat) -> bool)
      ensures Valid() && Settled(segs) && Items(segs) == NOTHING && previous == None
    {
      this.indentWidth, this.wraps := indentWidth, wraps;
      output, indent, lineStart, pendingLineBreak, pendingClose := "", 0, true, false, false;
      sourceNewlineSinceLastItem, sourceBlankLineSinceLastItem, inForHeader := false, false, false;
      delimiters, previous, segs := [], None, [];
    }

    /** The output is a layout, and a line starts only where one can. */
    ghost predicate Valid()
      reads this`output, this`segs, this`lineStart
    {
      output == TextOf(segs) && Laid(segs) && (lineStart ==> LineStarts(output))
    }

    /** Inside a line, with no line break due. */
    predicate Quiet()
      reads this`lineStart, this`pendingLineBreak, this`pendingClose
    {
      !lineStart && !pendingLineBreak && !pendingClose
    }

    method TrimTrailingSpaces()
      requires Valid()
      modifies this`output, this`segs
      ensures Valid() && Items(segs) == old(Items(segs)) && (old(Settled(segs)) ==> Settled(segs))
      ensures !EndsWith(output, ' ')
      ensures old(Behind(segs)) || old(EndsNewline(segs)) ==> segs == old(segs)
      ensures old(Near(segs)) ==> Behind(segs)
      ensures Behind(segs) ==> old(!EndsNewline(segs))
    {
      hide Laid, TextOf, Items, LexemeRight;
      while output != "" && output[|output| - 1] == ' '
        invariant Valid() && Items(segs) == old(Items(segs)) && (old(Settled(segs)) ==> Settled(segs))
        invariant old(Behind(segs)) || old(EndsNewline(segs)) ==> segs == old(segs)
        invariant old(Near(segs)) ==> Near(segs)
        decreases |output|
      {
        NoSpaceAtEnd(segs);
        ShorterLaid(segs);
        output, segs := output[..|output| - 1], Shorter(segs);
      }
      if Near(segs) {
        SpaceAtEnd(segs);
      }
    }

    method WriteIndentIfNeeded()
      requires Valid() && Settled(segs)
      modifies this`output, this`segs, this`lineStart
      ensures Valid() && Settled(segs) && Items(segs) == old(Items(segs)) && !lineStart
      ensures if old(lineStart) then Free(segs) else segs == old(segs)
    {
      hide Laid, TextOf, Items;
      if !lineStart {
        return;
      }
      FreeAtLineStart(segs);
      Indented(segs, indent * indentWidth);
      output, segs := output + Spaces(indent * indentWidth), segs + Blanks(indent * indentWidth);
      lineStart := false;
    }

    /** Writes a lexeme or a comment that may follow what is there. */
    method WriteRaw(text: string, ghost seg: Segment)
      requires Valid() && Settled(segs) && text == SegmentText(seg) && text != "" && SegmentRight(seg)
      requires !lineStart && segs != [] ==> Adjacent(segs[|segs| - 1], seg)
      modifies this`output, this`segs, this`lineStart
      ensures Valid() && !lineStart && segs != [] && segs[|segs| - 1] == seg
      ensures Items(segs) == With(old(Items(segs)), seg, old(Behind(segs)))
    {
      hide Laid, TextOf, Items, SegmentRight;
      if lineStart {
        FreeAtLineStart(segs);
      }
      WriteIndentIfNeeded();
      Added(segs, seg);
      output, segs := output + text, segs + [seg];
    }

    method Space()
      requires Valid() && Settled(segs)
      modifies this`output, this`segs
      ensures Valid() && Settled(segs) && Free(segs) && Items(segs) == old(Items(segs))
      ensures old(Behind(segs)) ==> Near(segs)
      ensures old(lineStart) ==> segs == old(segs)
    {
      hide Laid, TextOf, Items, LexemeRight;
      if Behind(segs) {
        NoSpaceAtEnd(segs);
      }
      if lineStart || output == "" || output[|output| - 1] == '\n' || output[|output| - 1] == ' ' {
        if LineStarts(output) {
          FreeAtLineStart(segs);
        } else {
          EndsBlank(segs, ' ');
        }
        return;
      }
      Added(segs, Blank(' '));
      output, segs := output + [' '], segs + [Blank(' ')];
    }

    method NewLine()
      requires Valid()
      modifies this`output, this`segs, this`lineStart
      ensures Valid() && Settled(segs) && Free(segs) && Items(segs) == old(Items(segs)) && lineStart
      ensures EndsNewline(segs)
    {
      hide Laid, TextOf, Items;
      TrimTrailingSpaces();
      if output == "" || output[|output| - 1] != '\n' {
        Added(segs, Blank('\n'));
        output, segs := output + ['\n'], segs + [Blank('\n')];
      } else {
        EndsBlank(segs, '\n');
      }
      lineStart := true;
      FreeAtLineStart(segs);
    }

    method EnsureBlankLine()
      requires Valid() && Settled(segs)
      modifies this`output, this`segs, this`lineStart
      ensures Valid() && Settled(segs) && Items(segs) == old(Items(segs))
      ensures old(lineStart) && old(EndsNewline(segs)) ==> lineStart && EndsNewline(segs)
    {
      hide Laid, TextOf, Items;
      TrimTrailingSpaces();
      if output == "" {
        if EndsNewline(segs) {
          NewlineText(segs);
        }
        return;
      }
      if !lineStart {
        Added(segs, Blank('\n'));
        output, segs := output + ['\n'], segs + [Blank('\n')];
        lineStart := true;
      }
      Added(segs, Blank('\n'));
      output, segs := output + ['\n'], segs + [Blank('\n')];
      lineStart := true;
    }

    /** The state may take the token at `index`. */
    ghost predicate Ready(tokens: seq<Token>, index: nat)
      requires index < |tokens|
      reads this`output, this`segs, this`lineStart
    {
      Valid() && Settled(segs) && LexemeRight(tokens[index]) && Items(segs).tokens == tokens[..index]
    }

    /** Writes a token; it may follow the one before it, or a blank stands between them. */
    method WriteToken(tokens: seq<Token>, index: nat) returns (ghost joint: bool)
      requires index < |tokens| && Ready(tokens, index)
      requires Free(segs) || MayFollow(tokens, index)
      modifies this`output, this`segs, this`lineStart
      ensures Took(tokens, index, joint) && joint == old(Behind(segs)) && Behind(segs) && !lineStart
    {
      hide Laid, TextOf, Items, LexemeRight;
      joint := Behind(segs);
      LexemeFilled(tokens[index]);
      if segs != [] && segs[|segs| - 1].Lexeme? {
        LastItem(segs);
      }
      WriteRaw(tokens[index].lexeme, Lexeme(tokens[index]));
      assert tokens[..index + 1] == tokens[..index] + [tokens[index]];
    }

    method WrapTopList()
      requires Valid() && Settled(segs)
      modifies this`output, this`segs, this`lineStart, this`delimiters, this`indent
      ensures Valid() && Settled(segs) && Items(segs) == old(Items(segs))
    {
      hide Laid, TextOf, Items;
      if delimiters == [] {
        return;
      }
      var delimiter := delimiters[|delimiters| - 1];
      if delimiter.kind != Parenthesis && delimiter.kind != Bracket {
        return;
      }
      delimiters := delimiters[|delimiters| - 1 := delimiter.(wrapped := true)];
      NewLine();
      indent := delimiter.baseIndent + 1;
    }

    method FlushLineBreak()
      requires Valid() && Settled(segs)
      modifies this`output, this`segs, this`lineStart, this`pendingLineBreak
      ensures Valid() && Settled(segs) && Items(segs) == old(Items(segs)) && (Behind(segs) ==> old(Behind(segs)))
    {
      hide Laid, TextOf, Items;
      if pendingLineBreak {
        NewLine();
        pendingLineBreak := false;
      }
    }

    predicate HasTopDelimiter(kind: DelimiterKind)
      reads this`delimiters
    {
      delimiters != [] && delimiters[|delimiters| - 1].kind == kind
    }

    predicate ShouldWrapAfterComma()
      reads this`delimiters
    {
      (HasTopDelimiter(Parenthesis) || HasTopDelimiter(Bracket)) && delimiters[|delimiters| - 1].wrapped
    }

    /** Removes the innermost delimiter of the kind. */
    method PopDelimiter(kind: DelimiterKind)
      modifies this`delimiters
      ensures
        var before := old(delimiters);
        || (delimiters == before && forall d :: d in before ==> d.kind != kind)
        || (exists i: nat ::
              && i < |before| && before[i].kind == kind && (forall j :: i < j < |before| ==> before[j].kind != kind)
              && delimiters == before[..i] + before[i + 1..])
    {
      var i := |delimiters|;
      while i > 0
        invariant 0 <= i <= |delimiters| && delimiters == old(delimiters)
        invariant forall j :: i <= j < |delimiters| ==> delimiters[j].kind != kind
      {
        i := i - 1;
        if delimiters[i].kind == kind {
          delimiters := delimiters[..i] + delimiters[i + 1..];
          return;
        }
      }
    }

    method FlushBeforeToken(current: TokenType)
      requires Valid() && Settled(segs)
      modifies this`output, this`segs, this`lineStart, this`pendingLineBreak, this`pendingClose
      ensures Valid() && Settled(segs) && Items(segs) == old(Items(segs)) && !pendingLineBreak && !pendingClose
      ensures old(Quiet()) ==> segs == old(segs) && !lineStart
      ensures old(lineStart) && old(EndsNewline(segs)) ==> lineStart && EndsNewline(segs)
    {
      hide Laid, TextOf, Items;
      var preserveTopLevelBlankLine := sourceBlankLineSinceLastItem && delimiters == [];
      var blankLineHandled := false;
      if pendingLineBreak {
        NewLine();
        pendingLineBreak := false;
        if preserveTopLevelBlankLine {
          EnsureBlankLine();
          blankLineHandled := true;
        }
      }
      if pendingClose {
        if !CanFollowClosingBraceOnSameLine(current) && !lineStart {
          if preserveTopLevelBlankLine {
            EnsureBlankLine();
            blankLineHandled := true;
          } else {
            NewLine();
          }
        }
        pendingClose := false;
      }
      if !blankLineHandled && preserveTopLevelBlankLine && lineStart {
        EnsureBlankLine();
      }
    }

    /** The state has taken it, after the same comments as before; `joint` tells whether it stands directly
        behind another token. */
    twostate predicate Took(tokens: seq<Token>, index: nat, joint: bool)
      requires index < |tokens|
      reads this`output, this`segs, this`lineStart
    {
      && Valid() && Settled(segs)
      && Items(segs) == Held(tokens[..index + 1], old(Items(segs)).comments, old(Items(segs)).joints + [joint])
    }

    method EmitOperator(tokens: seq<Token>, index: nat) returns (ghost joint: bool)
      requires index < |tokens| && Ready(tokens, index) && !IsWordLike(tokens[index].kind)
      modifies this`output, this`segs, this`lineStart
      ensures Took(tokens, index, joint) && (joint ==> old(Behind(segs)))
      ensures tokens[index].kind != Bang && tokens[index].kind != Minus ==> !joint && Near(segs) && !lineStart
    {
      hide Laid, TextOf, Items, LexemeRight, MayFollow;
      var kind := tokens[index].kind;
      if kind == Bang || (kind == Minus && IsUnaryMinus(tokens, index)) {
        if kind == Minus && index > 0 && tokens[index - 1].kind == Keyword("return") {
          Space();
        }
        FollowsByKind(tokens, index);
        joint := WriteToken(tokens, index);
        return;
      }
      var isDeclarationOperator := index > 0 && tokens[index - 1].kind == Keyword("operator");
      Space();
      joint := WriteToken(tokens, index);
      if !isDeclarationOperator {
        Space();
      }
    }

    method EmitOpen(tokens: seq<Token>, index: nat, kind: DelimiterKind) returns (ghost joint: bool)
      requires index < |tokens| && Ready(tokens, index) && MayFollow(tokens, index)
      modifies this`output, this`segs, this`lineStart, this`delimiters, this`indent
      ensures Took(tokens, index, joint) && (joint ==> old(Behind(segs)))
    {
      hide Laid, TextOf, Items, LexemeRight, MayFollow;
      joint := WriteToken(tokens, index);
      delimiters := delimiters + [Delimiter(kind, false, indent, false)];
      if wraps(output, index) {
        WrapTopList();
      }
    }

    method EmitClose(tokens: seq<Token>, index: nat, kind: DelimiterKind) returns (ghost joint: bool)
      requires index < |tokens| && Ready(tokens, index) && MayFollow(tokens, index)
      modifies this`output, this`segs, this`lineStart, this`delimiters, this`indent
      ensures Took(tokens, index, joint) && (joint ==> old(Behind(segs)))
    {
      hide Laid, TextOf, Items, LexemeRight, MayFollow;
      if HasTopDelimiter(kind) && delimiters[|delimiters| - 1].wrapped {
        if !lineStart {
          NewLine();
        }
        indent := delimiters[|delimiters| - 1].baseIndent;
      }
      joint := WriteToken(tokens, index);
      PopDelimiter(kind);
    }

    method EmitLeftBrace(tokens: seq<Token>, index: nat, empty: bool) returns (ghost joint: bool)
      requires index < |tokens| && Ready(tokens, index) && MayFollow(tokens, index)
      modifies
        this`output, this`segs, this`lineStart, this`delimiters, this`indent, this`pendingLineBreak, this`inForHeader
      ensures Took(tokens, index, joint) && (joint ==> old(Behind(segs)))
    {
      hide Laid, TextOf, Items, LexemeRight, MayFollow;
      joint := WriteToken(tokens, index);
      delimiters := delimiters + [Delimiter(Brace, empty, 0, false)];
      if !empty {
        indent := indent + 1;
        pendingLineBreak := true;
      }
      inForHeader := false;
    }

    method EmitRightBrace(tokens: seq<Token>, index: nat) returns (ghost joint: bool)
      requires index < |tokens| && Ready(tokens, index) && MayFollow(tokens, index)
      modifies
        this`output, this`segs, this`lineStart, this`delimiters, this`indent, this`pendingLineBreak, this`pendingClose
      ensures Took(tokens, index, joint) && (joint ==> old(Behind(segs)))
    {
      hide Laid, TextOf, Items, LexemeRight, MayFollow;
      if !(HasTopDelimiter(Brace) && delimiters[|delimiters| - 1].empty) {
        FlushLineBreak();
        if !lineStart {
          NewLine();
        }
        if indent > 0 {
          indent := indent - 1;
        }
      }
      joint := WriteToken(tokens, index);
      PopDelimiter(Brace);
      pendingClose := true;
    }

    method EmitComma(tokens: seq<Token>, index: nat) returns (ghost joint: bool)
      requires index < |tokens| && Ready(tokens, index) && MayFollow(tokens, index)
      modifies this`output, this`segs, this`lineStart, this`delimiters, this`indent, this`pendingLineBreak
      ensures Took(tokens, index, joint) && (joint ==> old(Behind(segs)))
    {
      hide Laid, TextOf, Items, LexemeRight, MayFollow;
      joint := WriteToken(tokens, index);
      if HasTopDelimiter(Brace) {
        pendingLineBreak := true;
      } else if ShouldWrapAfterComma() {
        WrapTopList();
      } else {
        Space();
      }
    }

    /** A token with no space before it. */
    method EmitTrimmed(tokens: seq<Token>, index: nat) returns (ghost joint: bool)
      requires index < |tokens| && Ready(tokens, index) && MayFollow(tokens, index)
      modifies this`output, this`segs, this`lineStart
      ensures Took(tokens, index, joint)
      ensures old(EndsNewline(segs)) ==> !joint
      ensures old(Near(segs)) ==> joint
      ensures Behind(segs) && !lineStart
    {
      hide Laid, TextOf, Items, LexemeRight, MayFollow;
      TrimTrailingSpaces();
      joint := WriteToken(tokens, index);
    }

    /** Colons, semicolons, dots and generic angles. */
    method EmitPunctuation(tokens: seq<Token>, index: nat) returns (ghost joint: bool)
      requires index < |tokens| && Ready(tokens, index) && MayFollow(tokens, index)
      modifies this`output, this`segs, this`lineStart, this`delimiters, this`pendingLineBreak
      ensures Took(tokens, index, joint)
      ensures old(EndsNewline(segs)) ==> !joint
      ensures old(Near(segs)) ==> joint
      ensures tokens[index].kind == Dot ==> Behind(segs) && !lineStart && pendingLineBreak == old(pendingLineBreak)
    {
      hide Laid, TextOf, Items, LexemeRight, MayFollow;
      var kind := tokens[index].kind;
      joint := EmitTrimmed(tokens, index);
      if kind == Colon || (kind == Semicolon && inForHeader) {
        Space();
      } else if kind == Semicolon {
        pendingLineBreak := true;
      } else if kind == Less {
        delimiters := delimiters + [Delimiter(Angle, false, 0, false)];
      } else if kind == Greater {
        PopDelimiter(Angle);
      }
    }

    method EmitWord(tokens: seq<Token>, index: nat) returns (ghost joint: bool)
      requires index < |tokens| && Ready(tokens, index) && (lineStart || Free(segs) || MayFollow(tokens, index))
      modifies this`output, this`segs, this`lineStart
      ensures Took(tokens, index, joint)
      ensures joint == old(Behind(segs)) && Behind(segs) && !lineStart
    {
      hide Laid, TextOf, Items, LexemeRight, MayFollow;
      if lineStart {
        FreeAtLineStart(segs);
      }
      joint := WriteToken(tokens, index);
    }

    /** Brackets, punctuation and generic angles. */
    method EmitPlain(tokens: seq<Token>, index: nat, pieces: seq<Piece>, currentPiece: nat, nextPiece: nat)
      returns (ghost joint: bool)
      requires index < |tokens| && Ready(tokens, index) && MayFollow(tokens, index)
      requires currentPiece < nextPiece <= |pieces|
      modifies
        this`output, this`segs, this`lineStart, this`delimiters, this`indent, this`pendingLineBreak, this`pendingClose,
        this`inForHeader
      ensures Took(tokens, index, joint)
      ensures old(EndsNewline(segs)) ==> !joint
      ensures old(Near(segs)) && tokens[index].kind in {Dot, Greater} ==> joint
      ensures
        tokens[index].kind == Dot ==>
          Behind(segs) && !lineStart && pendingLineBreak == old(pendingLineBreak) && pendingClose == old(pendingClose)
    {
      hide Laid, TextOf, Items, LexemeRight, MayFollow, Settled, Free, LineStarts;
      var kind := tokens[index].kind;
      if kind == LeftParen {
        joint := EmitOpen(tokens, index, Parenthesis);
      } else if kind == RightParen {
        joint := EmitClose(tokens, index, Parenthesis);
      } else if kind == LeftBracket {
        joint := EmitOpen(tokens, index, Bracket);
      } else if kind == RightBracket {
        joint := EmitClose(tokens, index, Bracket);
      } else if kind == LeftBrace {
        var empty := BraceIsEmpty(pieces, currentPiece, nextPiece);
        joint := EmitLeftBrace(tokens, index, empty);
      } else if kind == RightBrace {
        joint := EmitRightBrace(tokens, index);
      } else if kind == Comma {
        joint := EmitComma(tokens, index);
      } else {
        joint := EmitPunctuation(tokens, index);
      }
    }

    /** What may be pulled behind these tokens will be. */
    ghost predicate Tail(last: Token)
      reads this`segs, this`lineStart, this`pendingLineBreak, this`pendingClose
    {
      && (last.kind == Number || last.kind == Dot ==> Quiet() && Behind(segs))
      && (last.kind == Equal ==> Quiet() && Near(segs))
    }

    method EmitToken(
        tokens: seq<Token>, index: nat, genericAngle: bool, pieces: seq<Piece>, currentPiece: nat, nextPiece: nat)
      returns (ghost joint: bool)
      requires index < |tokens| && Ready(tokens, index) && tokens[index].kind != Question
      requires previous == KindBefore(tokens, index) && currentPiece < nextPiece <= |pieces|
      modifies this
      ensures Took(tokens, index, joint) && previous == KindBefore(tokens, index + 1) && Tail(tokens[index])
      ensures old(lineStart) && old(EndsNewline(segs)) ==> !joint
      ensures index > 0 && Arrow(tokens[index - 1], tokens[index]) && !genericAngle ==> !joint
      ensures index > 0 && old(Tail(tokens[index - 1])) && Pulls(tokens[index - 1].kind, tokens[index].kind, genericAngle)
           ==> joint
    {
      hide Laid, TextOf, Items, LexemeRight, MayFollow, RunsBack, ShouldSpaceBefore, IsOperator, IsWordLike;
      hide Settled, Free, Near, Behind, EndsNewline, Arrow, Pulls, Tail;
      var kind := tokens[index].kind;
      var atStart, spaced := BeginToken(tokens, index, genericAngle);
      if index > 0 && Pulls(tokens[index - 1].kind, kind, genericAngle) {
        PulledKinds(tokens[index - 1].kind, kind, genericAngle);
      }
      joint := PlaceToken(tokens, index, genericAngle, pieces, currentPiece, nextPiece, atStart, spaced);
      if kind == Keyword("for") {
        inForHeader := true;
      }
      previous := Some(kind);
      sourceNewlineSinceLastItem, sourceBlankLineSinceLastItem := false, false;
    }

    /** The line breaks that are due and the space before a token. */
    method BeginToken(tokens: seq<Token>, index: nat, genericAngle: bool) returns (atStart: bool, spaced: bool)
      requires index < |tokens| && Ready(tokens, index) && previous == KindBefore(tokens, index)
      modifies this`output, this`segs, this`lineStart, this`pendingLineBreak, this`pendingClose
      ensures Ready(tokens, index) && Items(segs) == old(Items(segs)) && !pendingLineBreak && !pendingClose
      ensures spaced == ShouldSpaceBefore(atStart, KindBefore(tokens, index), tokens[index].kind, genericAngle)
      ensures if spaced then Free(segs) else lineStart == atStart
      ensures old(lineStart) && old(EndsNewline(segs)) ==> EndsNewline(segs)
      ensures index > 0 && old(Tail(tokens[index - 1])) && Pulls(tokens[index - 1].kind, tokens[index].kind, genericAngle)
           ==> Near(segs) && (tokens[index].kind == Number ==> Behind(segs))
    {
      hide Laid, TextOf, Items, LexemeRight, ShouldSpaceBefore, Settled, Free, Near, Behind, EndsNewline;
      var kind := tokens[index].kind;
      EndFacts(segs);
      FlushBeforeToken(kind);
      atStart := lineStart;
      spaced := ShouldSpaceBefore(lineStart, previous, kind, genericAngle);
      StartUnspaced(previous, kind, genericAngle);
      if index > 0 && Pulls(tokens[index - 1].kind, kind, genericAngle) {
        PullsUnspaced(tokens[index - 1].kind, kind, genericAngle);
      }
      if spaced {
        Space();
      }
    }

    /** Writes the token as its kind asks for. */
    method PlaceToken(
        tokens: seq<Token>, index: nat, genericAngle: bool, pieces: seq<Piece>, currentPiece: nat, nextPiece: nat,
        ghost atStart: bool, spaced: bool)
      returns (ghost joint: bool)
      requires index < |tokens| && Ready(tokens, index) && tokens[index].kind != Question
      requires currentPiece < nextPiece <= |pieces| && !pendingLineBreak && !pendingClose
      requires spaced == ShouldSpaceBefore(atStart, KindBefore(tokens, index), tokens[index].kind, genericAngle)
      requires if spaced then Free(segs) else lineStart == atStart
      modifies
        this`output, this`segs, this`lineStart, this`delimiters, this`indent, this`pendingLineBreak, this`pendingClose,
        this`inForHeader
      ensures Took(tokens, index, joint) && Tail(tokens[index])
      ensures old(EndsNewline(segs)) ==> !joint
      ensures index > 0 && Arrow(tokens[index - 1], tokens[index]) && !genericAngle ==> !joint
      ensures tokens[index].kind == Dot && old(Near(segs)) ==> joint
      ensures tokens[index].kind == Greater && genericAngle && old(Near(segs)) ==> joint
      ensures tokens[index].kind == Number && old(Behind(segs)) ==> joint
    {
      hide Laid, TextOf, Items, LexemeRight, MayFollow, RunsBack, ShouldSpaceBefore, IsOperator, IsWordLike;
      hide Settled, Free, Near, Behind, EndsNewline;
      var kind := tokens[index].kind;
      KindFacts(kind);
      EndFacts(segs);
      if IsWordLike(kind) {
        WordFits(tokens, index, atStart, spaced, genericAngle);
        joint := EmitWord(tokens, index);
      } else if IsOperator(kind) && !(genericAngle && (kind == Less || kind == Greater)) {
        joint := EmitOperator(tokens, index);
      } else {
        PlainFits(tokens, index, genericAngle);
        joint := EmitPlain(tokens, index, pieces, currentPiece, nextPiece);
      }
    }

    /** A comment gets a space or a new line before it. */
    method FlushBeforeComment()
      requires Valid() && Settled(segs)
      modifies this`output, this`segs, this`lineStart, this`pendingLineBreak, this`pendingClose
      ensures Valid() && Settled(segs) && Free(segs) && Items(segs) == old(Items(segs))
    {
      hide Laid, TextOf, Items;
      if sourceBlankLineSinceLastItem && delimiters == [] {
        EnsureBlankLine();
      }
      if pendingLineBreak || pendingClose {
        if sourceNewlineSinceLastItem {
          NewLine();
        } else {
          Space();
        }
        if pendingLineBreak {
          pendingLineBreak := false;
        } else {
          pendingClose := false;
        }
      } else if sourceNewlineSinceLastItem && !lineStart {
        NewLine();
      } else if !lineStart {
        Space();
      } else {
        FreeAtLineStart(segs);
      }
    }

    /** A comment gets a new line after it. */
    method EmitComment(text: string)
      requires Valid() && Settled(segs) && IsComment(text)
      modifies this
      ensures Valid() && Settled(segs) && previous == old(previous) && lineStart && EndsNewline(segs)
      ensures Items(segs) == With(old(Items(segs)), Comment(text), false)
    {
      hide Laid, TextOf, Items, With, Trimmed, IsComment;
      FlushBeforeComment();
      CommentFilled(text);
      WriteRaw(text, Comment(text));
      NewLine();
      sourceNewlineSinceLastItem, sourceBlankLineSinceLastItem := false, false;
    }

    method NoteBlanks(text: string)
      modifies this`sourceNewlineSinceLastItem, this`sourceBlankLineSinceLastItem
      ensures sourceNewlineSinceLastItem == (old(sourceNewlineSinceLastItem) || '\n' in text)
      ensures sourceBlankLineSinceLastItem
           == (old(sourceBlankLineSinceLastItem) || (delimiters == [] && multiset(text)['\n'] >= 2))
    {
      if '\n' in text {
        sourceNewlineSinceLastItem := true;
        if delimiters == [] && multiset(text)['\n'] >= 2 {
          sourceBlankLineSinceLastItem := true;
        }
      }
    }

    /** The first `k` pieces have been written, with `tokenIndex` tokens among them. */
    ghost predicate Written(pieces: seq<Piece>, k: nat, tokens: seq<Token>, angles: seq<bool>, tokenIndex: nat)
      requires k <= |pieces| && tokenIndex <= |tokens|
      reads this`output, this`segs, this`lineStart, this`pendingLineBreak, this`pendingClose, this`previous
    {
      && Valid() && Settled(segs) && previous == KindBefore(tokens, tokenIndex)
      && Handled(pieces, k, tokens, tokenIndex, Items(segs))
      && |Items(segs).joints| == tokenIndex
      && JointsRight(tokens, LosslessSource.SeveredOf(pieces), angles, Items(segs).joints)
      && if LosslessSource.CommentPending(pieces[..k]) then lineStart && EndsNewline(segs)
         else tokenIndex > 0 ==> Tail(tokens[tokenIndex - 1])
    }

    method EmitTokenPiece(
        pieces: seq<Piece>, k: nat, tokens: seq<Token>, indexes: seq<nat>, angles: seq<bool>, tokenIndex: nat)
      requires k < |pieces| && tokenIndex <= |tokens| && Written(pieces, k, tokens, angles, tokenIndex)
      requires pieces[k].TokenPiece? && PiecesRight(pieces) && tokens == LosslessSource.TokensOf(pieces)
      requires QuestionFree(tokens) && Located(pieces, indexes) && |indexes| == |tokens| == |angles|
      modifies this
      ensures tokenIndex < |tokens| && Written(pieces, k + 1, tokens, angles, tokenIndex + 1)
    {
      hide Laid, TextOf, Items, Settled, Handled, PiecesRight, QuestionFree, Located, LexemeRight;
      hide LosslessSource.TokensOf, LosslessSource.CommentsOf, TrimmedAll, Arrow, LosslessSource.SeveredOf,
        LosslessSource.CommentPending, EndsNewline, Tail, JointsRight;
      TokenNext(pieces, k, tokens, tokenIndex, Items(segs));
      SeveredAt(pieces, k, tokens, tokenIndex, Items(segs));
      var nextPiece := |pieces|;
      if tokenIndex + 1 < |indexes| {
        NextLater(pieces, indexes, k, tokens, tokenIndex, Items(segs));
        nextPiece := indexes[tokenIndex + 1];
      }
      ghost var joints, comments := Items(segs).joints, Items(segs).comments;
      ghost var joint := EmitToken(tokens, tokenIndex, angles[tokenIndex], pieces, k, nextPiece);
      assert JointRight(tokens, LosslessSource.SeveredOf(pieces), angles, joints + [joint], tokenIndex);
      JointsMore(tokens, LosslessSource.SeveredOf(pieces), angles, joints, joint);
      AnyJoints(pieces, k + 1, tokens, tokenIndex + 1, Held(tokens[..tokenIndex + 1], comments, []), joints + [joint]);
    }

    method EmitPieces(pieces: seq<Piece>, tokens: seq<Token>, indexes: seq<nat>, angles: seq<bool>)
      requires Valid() && Settled(segs) && Items(segs) == NOTHING && previous == None
      requires PiecesRight(pieces) && tokens == LosslessSource.TokensOf(pieces) && QuestionFree(tokens)
      requires Located(pieces, indexes) && |indexes| == |tokens| == |angles|
      modifies this
      ensures
        Valid() && Items(segs) == Held(tokens, TrimmedAll(LosslessSource.CommentsOf(pieces)), Items(segs).joints)
      ensures |Items(segs).joints| == |tokens|
      ensures JointsRight(tokens, LosslessSource.SeveredOf(pieces), angles, Items(segs).joints)
    {
      hide Laid, TextOf, Items, Settled, Handled, PiecesRight, QuestionFree, Located, LexemeRight, IsComment, With;
      hide LosslessSource.TokensOf, LosslessSource.CommentsOf, TrimmedAll, Arrow, LosslessSource.SeveredOf,
        LosslessSource.CommentPending, EndsNewline, Tail, JointsRight;
      var tokenIndex: nat := 0;
      NothingHandled(pieces, tokens);
      NoJoints(pieces, tokens, angles);
      for k := 0 to |pieces|
        invariant tokenIndex <= |tokens| && Written(pieces, k, tokens, angles, tokenIndex)
      {
        var piece := pieces[k];
        if piece.TokenPiece? {
          EmitTokenPiece(pieces, k, tokens, indexes, angles, tokenIndex);
          tokenIndex := tokenIndex + 1;
        } else if LosslessSource.IsLineComment(piece) {
          CommentNext(pieces, k, tokens, tokenIndex, Items(segs));
          PendingNext(pieces, k);
          WithComment(Items(segs), piece.text);
          EmitComment(piece.text);
        } else {
          BlankNext(pieces, k, tokens, tokenIndex, Items(segs));
          PendingNext(pieces, k);
          NoteBlanks(piece.text);
        }
      }
      AllHandled(pieces, tokens, tokenIndex, Items(segs));
    }

    /** Ends the output with exactly one new line. */
    method Finish()
      requires Valid()
      modifies this`output, this`segs
      ensures output == TextOf(segs) && Laid(segs) && Items(segs) == old(Items(segs))
    {
      hide Laid, TextOf, Items;
      TrimTrailingSpaces();
      while output != "" && output[|output| - 1] == '\n'
        invariant output == TextOf(segs) && Laid(segs) && Items(segs) == old(Items(segs))
        decreases |output|
      {
        EndsBlank(segs, '\n');
        BlankDropped(segs, '\n');
        output, segs := output[..|output| - 1], segs[..|segs| - 1];
      }
      if output != "" {
        Added(segs, Blank('\n'));
        output, segs := output + ['\n'], segs + [Blank('\n')];
      }
    }
  }

  // ----------------------------------------------------------------------- formatting

  method CollectTokens(pieces: seq<Piece>) returns (tokens: seq<Token>, indexes: seq<nat>)
    ensures tokens == LosslessSource.TokensOf(pieces) && |indexes| == |tokens| && Located(pieces, indexes)
  {
    hide LosslessSource.TokensOf;
    tokens, indexes := [], [];
    NoTokens();
    for k := 0 to |pieces|
      invariant tokens == LosslessSource.TokensOf(pieces[..k]) && |indexes| == |tokens| && Located(pieces, indexes)
    {
      assert pieces[..k + 1] == pieces[..k] + [pieces[k]];
      LosslessSource.TokensOfMore(pieces[..k], pieces[k]);
      if pieces[k].TokenPiece? {
        LocatedMore(pieces, indexes, k);
        tokens, indexes := tokens + [pieces[k].token], indexes + [k];
      }
    }
    assert pieces[..|pieces|] == pieces;
  }

  lemma NoTokens()
    ensures LosslessSource.TokensOf([]) == []
  {
  }

  lemma LocatedMore(pieces: seq<Piece>, indexes: seq<nat>, k: nat)
    requires Located(pieces, indexes) && LocatedAt(pieces, k, |indexes|)
    ensures Located(pieces, indexes + [k])
  {
    hide LocatedAt;
  }

  method HasQuestion(tokens: seq<Token>) returns (found: bool)
    ensures found == !QuestionFree(tokens)
  {
    for k := 0 to |tokens|
      invariant QuestionFree(tokens[..k])
    {
      if tokens[k].kind == Question {
        return true;
      }
    }
    assert tokens[..|tokens|] == tokens;
    return false;
  }

  /** A source of comments alone keeps them one a line. */
  method FormatComments(pieces: seq<Piece>) returns (comments: string)
    requires PiecesRight(pieces) && LosslessSource.TokensOf(pieces) == []
    ensures Preserved(comments, [], LosslessSource.CommentsOf(pieces))
  {
    hide Laid, TextOf, Items, LosslessSource.TokensOf, LosslessSource.CommentsOf, Preserved, IsComment, TrimmedAll;
    hide Trimmed, PieceRight;
    comments := "";
    ghost var segs: seq<Segment> := [];
    NothingHandled(pieces, []);
    NothingWritten();
    for k := 0 to |pieces|
      invariant comments == TextOf(segs) && Laid(segs) && Handled(pieces, k, [], 0, Items(segs))
      invariant Items(segs).joints == []
      invariant segs != [] ==> segs[|segs| - 1].Comment?
      invariant comments == "" <==> segs == []
    {
      TokensPrefix(pieces, k + 1, |pieces|);
      assert pieces[..|pieces|] == pieces;
      if LosslessSource.IsLineComment(pieces[k]) {
        CommentNext(pieces, k, [], 0, Items(segs));
        CommentFilled(pieces[k].text);
        if comments != "" {
          Added(segs, Blank('\n'));
          comments, segs := comments + ['\n'], segs + [Blank('\n')];
        }
        Added(segs, Comment(pieces[k].text));
        comments, segs := comments + pieces[k].text, segs + [Comment(pieces[k].text)];
      } else {
        PieceAdded(pieces, k);
        BlankNext(pieces, k, [], 0, Items(segs));
      }
    }
    AllHandled(pieces, [], 0, Items(segs));
    if comments != "" {
      Added(segs, Blank('\n'));
      comments, segs := comments + ['\n'], segs + [Blank('\n')];
    }
    LayoutPreserves(segs, [], LosslessSource.CommentsOf(pieces), []);
  }

  lemma NothingWritten()
    ensures TextOf([]) == "" && Laid([]) && Items([]) == NOTHING
  {
  }

  /** Lexing the text gives the tokens, and the comments up to the spaces at their ends. */
  predicate Preserved(text: string, tokens: seq<Token>, comments: seq<string>) {
    && Clean(text, 0) && SameTokens(TokensFrom(text, 0), tokens)
    && TrimmedAll(CommentsFrom(text, 0)) == TrimmedAll(comments)
  }

  /** The text of a layout preserves what it holds exactly when no lexemes run together. */
  lemma LayoutPreserves(segs: seq<Segment>, tokens: seq<Token>, comments: seq<string>, joints: seq<bool>)
    requires Laid(segs) && Items(segs) == Held(tokens, TrimmedAll(comments), joints) && |joints| == |tokens|
    ensures Preserved(TextOf(segs), tokens, comments) <==> Smooth(tokens, joints)
  {
    hide Laid, LexemesIn, CommentsIn, JointsIn, TrimmedAll, Smooth, Clean, SameTokens, TokensFrom, CommentsFrom;
    LayoutReads(segs, 0);
    assert segs[..0] == [];
  }

  /** A generic `>` directly after `=`, or a number without fraction, a dot and a number in a row, with
      no comment between. */
  ghost predicate Clashes(tokens: seq<Token>, severed: seq<bool>, i: nat)
    requires |severed| == |tokens| && i + 1 < |tokens|
  {
    || (Arrow(tokens[i], tokens[i + 1]) && GenericAngle(tokens, i + 1) && !severed[i + 1])
    || (i + 2 < |tokens| && Whole(tokens[i]) && tokens[i + 1].kind == Dot && tokens[i + 2].kind == Number
        && !severed[i + 1] && !severed[i + 2])
  }

  /** No lexemes that the formatter would run together; `severed` tells before which tokens there is a
      comment. */
  ghost predicate Formattable(tokens: seq<Token>, severed: seq<bool>) {
    |severed| == |tokens| && forall i: nat :: i + 1 < |tokens| ==> !Clashes(tokens, severed, i)
  }

  lemma MergesExactly(tokens: seq<Token>, severed: seq<bool>, angles: seq<bool>, joints: seq<bool>, i: nat)
    requires JointsRight(tokens, severed, angles, joints) && |joints| == |tokens| && i + 1 < |tokens|
    requires forall k: nat :: k < |tokens| ==> (angles[k] <==> GenericAngle(tokens, k))
    ensures Merges(tokens, joints, i) <==> Clashes(tokens, severed, i)
  {
    hide GenericAngle;
    assert JointRight(tokens, severed, angles, joints, i + 1);
    if i + 2 < |tokens| {
      assert JointRight(tokens, severed, angles, joints, i + 2);
    }
  }

  lemma SmoothExactly(tokens: seq<Token>, severed: seq<bool>, angles: seq<bool>, joints: seq<bool>)
    requires JointsRight(tokens, severed, angles, joints) && |joints| == |tokens|
    requires forall k: nat :: k < |tokens| ==> (angles[k] <==> GenericAngle(tokens, k))
    ensures Smooth(tokens, joints) <==> Formattable(tokens, severed)
  {
    hide GenericAngle, Merges, Clashes, JointRight;
    forall i: nat | i + 1 < |tokens| ensures Merges(tokens, joints, i) <==> Clashes(tokens, severed, i) {
      MergesExactly(tokens, severed, angles, joints, i);
    }
  }

  /** Refused for a zero indentation and for the removed `?` syntax; otherwise the text has the
      same tokens and comments exactly when the formatter runs no lexemes together.
   */
  method FormatLosslessSource(pieces: seq<Piece>, indentWidth: nat, wraps: (string, nat) -> bool)
    returns (ok: bool, result: string)
    requires PiecesRight(pieces)
    ensures ok == (indentWidth > 0 && QuestionFree(LosslessSource.TokensOf(pieces)))
    ensures
      ok ==>
        (Preserved(result, LosslessSource.TokensOf(pieces), LosslessSource.CommentsOf(pieces))
         <==> Formattable(LosslessSource.TokensOf(pieces), LosslessSource.SeveredOf(pieces)))
  {
    hide Laid, TextOf, Items, PiecesRight, LosslessSource.TokensOf, LosslessSource.CommentsOf, Preserved, TrimmedAll;
    hide Located, GenericAngle, QuestionFree, JointsRight, Formattable, Smooth, LosslessSource.SeveredOf;
    if indentWidth == 0 {
      return false, "";
    }
    var tokens, indexes := CollectTokens(pieces);
    var question := HasQuestion(tokens);
    if question {
      return false, "";
    }
    if tokens == [] {
      result := FormatComments(pieces);
      NothingClashes(pieces);
      return true, result;
    }
    var angles := FindGenericAngles(tokens);
    var state := new FormatterState(indentWidth, wraps);
    state.EmitPieces(pieces, tokens, indexes, angles);
    state.Finish();
    ghost var joints := Items(state.segs).joints;
    LayoutPreserves(state.segs, tokens, LosslessSource.CommentsOf(pieces), joints);
    SmoothExactly(tokens, LosslessSource.SeveredOf(pieces), angles, joints);
    return true, state.output;
  }

  lemma NothingClashes(pieces: seq<Piece>)
    requires LosslessSource.TokensOf(pieces) == []
    ensures Formattable([], LosslessSource.SeveredOf(pieces))
  {
    SeveredCount(pieces);
  }

  // -------------------------------------------------------------------- whole sources

  lemma {:induction false} TilesRight(s: string, cursor: nat, tokens: seq<Token>)
    requires cursor <= |s| && Tiles(s, cursor, tokens)
    ensures forall k :: 0 <= k < |tokens| ==> LexemeRight(tokens[k])
    decreases |tokens|
  {
    hide ScanAt, LexemeRight;
    if tokens != [] {
      TokenRight(s, tokens[0]);
      TilesRight(s, tokens[0].end, tokens[1..]);
      forall k | 0 <= k < |tokens| ensures LexemeRight(tokens[k]) {
        assert k > 0 ==> tokens[k] == tokens[1..][k - 1];
      }
    }
  }

  lemma TokenRight(s: string, t: Token)
    requires t.start < t.end <= |s| && t.lexeme == s[t.start..t.end] && ScanAt(s, t.start) == Found(t.kind, t.end)
    ensures LexemeRight(t)
  {
    hide ScanAt;
    var n := t.end - t.start;
    assert t.lexeme[0..0 + n] == s[t.start..t.start + n];
    BlankStops(t.kind, t.lexeme, n);
    Relexed(s, t.start, t.lexeme, 0, n);
  }

  lemma CommentScanned(s: string, i: nat)
    requires i < |s| && ScanAt(s, i).Skipped? && s[i] == '/'
    ensures IsComment(s[i..ScanAt(s, i).end])
  {
    SlashSymbol(s, i);
  }

  lemma {:induction false} CommentsRight(s: string, i: nat)
    requires i <= |s|
    ensures forall c :: c in CommentsFrom(s, i) ==> IsComment(c)
    decreases |s| - i
  {
    hide ScanAt, IsComment;
    if i < |s| {
      CommentsRight(s, ScanAt(s, i).end);
      if ScanAt(s, i).Skipped? && s[i] == '/' {
        CommentScanned(s, i);
      }
    }
  }

  lemma {:induction false} PieceListed(pieces: seq<Piece>, k: nat)
    requires k < |pieces|
    ensures pieces[k].TokenPiece? ==> pieces[k].token in LosslessSource.TokensOf(pieces)
    ensures LosslessSource.IsLineComment(pieces[k]) ==> pieces[k].text in LosslessSource.CommentsOf(pieces)
    decreases |pieces|
  {
    if k < |pieces| - 1 {
      PieceListed(pieces[..|pieces| - 1], k);
    }
  }

  /** Formatting a source that lexes keeps its tokens and comments exactly when no lexemes run together. */
  method FormatSource(source: string, indentWidth: nat, wraps: (string, nat) -> bool) returns (ok: bool, result: string)
    ensures ok == (Clean(source, 0) && indentWidth > 0 && QuestionFree(TokensFrom(source, 0)))
    ensures
      ok ==>
        (Preserved(result, TokensFrom(source, 0), CommentsFrom(source, 0))
         <==> Formattable(TokensFrom(source, 0), LosslessSource.SeveredFrom(source, 0, false)))
  {
    hide *;
    var lexed, pieces, _ := LosslessSource.RoundTrip(source);
    if !lexed {
      return false, "";
    }
    SourceRight(source, pieces);
    ok, result := FormatLosslessSource(pieces, indentWidth, wraps);
  }

  lemma SourceRight(source: string, pieces: seq<Piece>)
    requires Clean(source, 0) && LosslessSource.TokensOf(pieces) == TokensFrom(source, 0)
    requires LosslessSource.CommentsOf(pieces) == CommentsFrom(source, 0)
    ensures PiecesRight(pieces)
  {
    hide Clean, TokensFrom, CommentsFrom, Tiles, LexemeRight, IsComment;
    hide LosslessSource.TokensOf, LosslessSource.CommentsOf;
    TokensTile(source, 0);
    TilesRight(source, 0, TokensFrom(source, 0));
    CommentsRight(source, 0);
    forall k | 0 <= k < |pieces| ensures PieceRight(pieces[k]) {
      PieceListed(pieces, k);
    }
  }

  /** `1 . 2`, which is formatted as one number. */
  const SPACED := "1 . 2"

  lemma SpacedLexed()
    ensures
      Clean(SPACED, 0)
      && TokensFrom(SPACED, 0) == [Token(Number, "1", 0, 1), Token(Dot, ".", 2, 3), Token(Number, "2", 4, 5)]
    ensures LosslessSource.SeveredFrom(SPACED, 0, false) == [false, false, false]
  {
    var s := SPACED;
    assert DigitsEnd(s, 1) == 1 && DigitsEnd(s, 5) == 5;
    assert ScanAt(s, 4) == Found(Number, 5) && s[4..5] == "2";
    assert ScanAt(s, 3) == Skipped(4) && ScanAt(s, 1) == Skipped(2);
    assert ScanAt(s, 2) == Found(Dot, 3) && s[2..3] == ".";
    assert ScanAt(s, 0) == Found(Number, 1) && s[0..1] == "1";
    LexedTail(s);
  }

  lemma LexedTail(s: string)
    requires s == SPACED
    requires ScanAt(s, 0) == Found(Number, 1) && ScanAt(s, 1) == Skipped(2) && ScanAt(s, 2) == Found(Dot, 3)
    requires ScanAt(s, 3) == Skipped(4) && ScanAt(s, 4) == Found(Number, 5)
    requires s[0..1] == "1" && s[2..3] == "." && s[4..5] == "2"
    ensures
      Clean(s, 0)
      && TokensFrom(s, 0) == [Token(Number, "1", 0, 1), Token(Dot, ".", 2, 3), Token(Number, "2", 4, 5)]
    ensures LosslessSource.SeveredFrom(s, 0, false) == [false, false, false]
  {
    hide ScanAt;
    assert s[1] == ' ' && s[3] == ' ';
    assert TokensFrom(s, 5) == [] && Clean(s, 5) && LosslessSource.SeveredFrom(s, 5, false) == [];
    assert TokensFrom(s, 3) == TokensFrom(s, 4) == [Token(Number, "2", 4, 5)] && Clean(s, 4);
    assert LosslessSource.SeveredFrom(s, 3, false) == LosslessSource.SeveredFrom(s, 4, false) == [false];
    assert TokensFrom(s, 1) == TokensFrom(s, 2) == [Token(Dot, ".", 2, 3), Token(Number, "2", 4, 5)] && Clean(s, 2);
    assert LosslessSource.SeveredFrom(s, 1, false) == LosslessSource.SeveredFrom(s, 2, false) == [false, false];
  }

  /** A source that lexes and whose tokens the formatter does not keep. */
  lemma SpacedNotFormattable()
    ensures Clean(SPACED, 0) && QuestionFree(TokensFrom(SPACED, 0))
    ensures !Formattable(TokensFrom(SPACED, 0), LosslessSource.SeveredFrom(SPACED, 0, false))
  {
    hide TokensFrom, Clean, GenericAngle, LosslessSource.SeveredFrom;
    SpacedLexed();
    assert Clashes(TokensFrom(SPACED, 0), LosslessSource.SeveredFrom(SPACED, 0, false), 0);
  }
}
