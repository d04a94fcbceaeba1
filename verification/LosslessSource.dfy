/** The lossless view: tokens and the trivia between them as pieces that cover the source. */
module LosslessSource {
  import opened Lexer

  datatype TriviaKind = Whitespace | LineComment | Other

  datatype Piece = TokenPiece(token: Token, start: nat, end: nat, text: string)
                 | TriviaPiece(kind: TriviaKind, start: nat, end: nat, text: string)

  /** What `isspace` accepts. */
  predicate IsSpace(c: char) {
    IsBlank(c) || c == '\U{000B}' || c == '\U{000C}'
  }

  /** The pieces follow one another from `b` to `e` and hold their slices of the source. */
  predicate Cover(s: string, b: nat, e: nat, pieces: seq<Piece>)
    requires e <= |s|
    decreases |pieces|
  {
    if pieces == [] then b == e
    else
      var p := pieces[0];
      p.start == b <= p.end <= e && p.text == s[b..p.end] && Cover(s, p.end, e, pieces[1..])
  }

  function TextOf(pieces: seq<Piece>): string {
    if pieces == [] then "" else pieces[0].text + TextOf(pieces[1..])
  }

  lemma {:induction false} CoverText(s: string, b: nat, e: nat, pieces: seq<Piece>)
    requires b <= e <= |s| && Cover(s, b, e, pieces)
    ensures TextOf(pieces) == s[b..e]
    decreases |pieces|
  {
    if pieces != [] {
      CoverText(s, pieces[0].end, e, pieces[1..]);
    }
  }

  lemma {:induction false} CoverMore(s: string, b: nat, m: nat, e: nat, pieces: seq<Piece>, p: Piece)
    requires b <= m <= e <= |s| && Cover(s, b, m, pieces) && p.start == m <= p.end == e && p.text == s[m..e]
    ensures Cover(s, b, e, pieces + [p])
    decreases |pieces|
  {
    if pieces == [] {
      assert [p][1..] == [] && pieces + [p] == [p];
    } else {
      CoverMore(s, pieces[0].end, m, e, pieces[1..], p);
      assert (pieces + [p])[1..] == pieces[1..] + [p];
    }
  }

  predicate NoOther(pieces: seq<Piece>) {
    forall k :: 0 <= k < |pieces| && pieces[k].TriviaPiece? ==> pieces[k].kind != Other
  }

  function TokensOf(pieces: seq<Piece>): seq<Token> {
    if pieces == [] then []
    else TokensOf(pieces[..|pieces| - 1])
         + (if pieces[|pieces| - 1].TokenPiece? then [pieces[|pieces| - 1].token] else [])
  }

  lemma TokensOfMore(pieces: seq<Piece>, p: Piece)
    ensures TokensOf(pieces + [p]) == TokensOf(pieces) + (if p.TokenPiece? then [p.token] else [])
  {
    assert (pieces + [p])[..|pieces|] == pieces;
  }

  predicate IsLineComment(p: Piece) {
    p.TriviaPiece? && p.kind == LineComment
  }

  /** The texts of the line comments among the pieces. */
  function CommentsOf(pieces: seq<Piece>): seq<string> {
    if pieces == [] then []
    else
      var last := pieces[|pieces| - 1];
      CommentsOf(pieces[..|pieces| - 1]) + (if IsLineComment(last) then [last.text] else [])
  }

  lemma CommentsOfMore(pieces: seq<Piece>, p: Piece)
    ensures CommentsOf(pieces + [p]) == if IsLineComment(p) then CommentsOf(pieces) + [p.text] else CommentsOf(pieces)
  {
    assert (pieces + [p])[..|pieces|] == pieces;
    assert CommentsOf(pieces) + [] == CommentsOf(pieces);
  }

  /** A comment stands behind the last token, or behind the start. */
  predicate CommentPending(pieces: seq<Piece>) {
    if pieces == [] || pieces[|pieces| - 1].TokenPiece? then false
    else IsLineComment(pieces[|pieces| - 1]) || CommentPending(pieces[..|pieces| - 1])
  }

  /** Of each token, whether a comment stands between it and the token before it. */
  function SeveredOf(pieces: seq<Piece>): seq<bool> {
    if pieces == [] then []
    else
      var before := pieces[..|pieces| - 1];
      SeveredOf(before) + (if pieces[|pieces| - 1].TokenPiece? then [CommentPending(before)] else [])
  }

  lemma SeveredMore(pieces: seq<Piece>, p: Piece)
    ensures SeveredOf(pieces + [p]) == SeveredOf(pieces) + (if p.TokenPiece? then [CommentPending(pieces)] else [])
    ensures CommentPending(pieces + [p]) == (!p.TokenPiece? && (IsLineComment(p) || CommentPending(pieces)))
  {
    assert (pieces + [p])[..|pieces|] == pieces;
  }

  /** The same for the tokens of a source from position `i` on; `pending` tells whether a comment has been
      read since the last token. */
  function SeveredFrom(s: string, i: nat, pending: bool): seq<bool>
    requires i <= |s|
    decreases |s| - i
  {
    if i == |s| then []
    else
      match ScanAt(s, i)
      case Found(_, e) => [pending] + SeveredFrom(s, e, false)
      case Skipped(e) => SeveredFrom(s, e, pending || s[i] == '/')
      case Rejected(e) => SeveredFrom(s, e, pending)
  }

  predicate StartsComment(s: string, i: nat, end: nat)
    requires end <= |s|
  {
    i + 1 < end && s[i] == '/' && s[i + 1] == '/'
  }

  /** Trivia is a comment up to its newline, or a blank, and then trivia. */
  lemma TriviaHead(s: string, b: nat, e: nat)
    requires e <= |s| && Trivia(s, b, e) && b < e
    ensures
      if StartsComment(s, b, e) then b + 2 <= Find(s, '\n', b + 2) <= e && Trivia(s, Find(s, '\n', b + 2), e)
      else IsBlank(s[b]) && Trivia(s, b + 1, e)
  {
  }

  method AppendTrivia(pieces: seq<Piece>, s: string, begin: nat, end: nat) returns (more: seq<Piece>)
    requires begin <= end <= |s| && Cover(s, 0, begin, pieces)
    ensures Cover(s, 0, end, more) && TokensOf(more) == TokensOf(pieces)
    ensures NoOther(pieces) && Trivia(s, begin, end) ==> NoOther(more)
    ensures Trivia(s, begin, end)
         ==> CommentsOf(more) + CommentsFrom(s, end) == CommentsOf(pieces) + CommentsFrom(s, begin)
    ensures SeveredOf(more) == SeveredOf(pieces)
    ensures Trivia(s, begin, end)
         ==> SeveredFrom(s, end, CommentPending(more)) == SeveredFrom(s, begin, CommentPending(pieces))
  {
    hide Cover, TokensOf, CommentsOf, CommentsFrom, Trivia, SeveredOf, SeveredFrom, CommentPending;
    more := pieces;
    var cursor := begin;
    while cursor < end
      invariant begin <= cursor <= end && Cover(s, 0, cursor, more) && TokensOf(more) == TokensOf(pieces)
      invariant Trivia(s, begin, end) ==> Trivia(s, cursor, end) && (NoOther(pieces) ==> NoOther(more))
      invariant Trivia(s, begin, end)
             ==> CommentsOf(more) + CommentsFrom(s, cursor) == CommentsOf(pieces) + CommentsFrom(s, begin)
      invariant SeveredOf(more) == SeveredOf(pieces)
      invariant Trivia(s, begin, end)
             ==> SeveredFrom(s, cursor, CommentPending(more)) == SeveredFrom(s, begin, CommentPending(pieces))
      decreases end - cursor
    {
      var pieceEnd, kind;
      if s[cursor] == '/' && cursor + 1 < end && s[cursor + 1] == '/' {
        pieceEnd := CommentEnd(s, cursor, end);
        kind := LineComment;
      } else {
        pieceEnd, kind := BlankEnd(s, cursor, end);
      }
      var piece := TriviaPiece(kind, cursor, pieceEnd, s[cursor..pieceEnd]);
      CoverMore(s, 0, cursor, pieceEnd, more, piece);
      TokensOfMore(more, piece);
      CommentsOfMore(more, piece);
      SeveredMore(more, piece);
      assert SeveredOf(more) + [] == SeveredOf(more);
      more := more + [piece];
      cursor := pieceEnd;
    }
  }

  method CommentEnd(s: string, cursor: nat, end: nat) returns (commentEnd: nat)
    requires end <= |s| && StartsComment(s, cursor, end)
    ensures cursor < commentEnd <= end
    ensures Trivia(s, cursor, end)
         ==> && Trivia(s, commentEnd, end)
             && CommentsFrom(s, cursor) == [s[cursor..commentEnd]] + CommentsFrom(s, commentEnd)
             && forall pending :: SeveredFrom(s, cursor, pending) == SeveredFrom(s, commentEnd, true)
  {
    hide CommentsFrom, SeveredFrom;
    commentEnd := cursor + 2;
    while commentEnd < end && s[commentEnd] != '\n'
      invariant cursor + 2 <= commentEnd <= end && forall k :: cursor + 2 <= k < commentEnd ==> s[k] != '\n'
    {
      commentEnd := commentEnd + 1;
    }
    if Trivia(s, cursor, end) {
      TriviaHead(s, cursor, end);
      var e := Find(s, '\n', cursor + 2);
      if commentEnd < end {
        FoundAt(s, '\n', cursor + 2, commentEnd);
      } else {
        assert e <= commentEnd;
        assert e == commentEnd;
      }
      CommentFirst(s, cursor);
    }
  }

  lemma CommentFirst(s: string, i: nat)
    requires StartsComment(s, i, |s|)
    ensures CommentsFrom(s, i) == [s[i..Find(s, '\n', i + 2)]] + CommentsFrom(s, Find(s, '\n', i + 2))
    ensures forall pending :: SeveredFrom(s, i, pending) == SeveredFrom(s, Find(s, '\n', i + 2), true)
  {
  }

  lemma BlankFirst(s: string, i: nat)
    requires i < |s| && IsBlank(s[i])
    ensures CommentsFrom(s, i) == CommentsFrom(s, i + 1)
    ensures forall pending :: SeveredFrom(s, i, pending) == SeveredFrom(s, i + 1, pending)
  {
    assert s[i] != '/';
  }

  predicate AllSpace(s: string, b: nat, e: nat)
    requires e <= |s|
  {
    forall k :: b <= k < e ==> IsSpace(s[k])
  }

  method IsAllSpace(s: string, b: nat, e: nat) returns (all: bool)
    requires b <= e <= |s|
    ensures all == AllSpace(s, b, e)
  {
    for k := b to e
      invariant AllSpace(s, b, k)
    {
      if !IsSpace(s[k]) {
        return false;
      }
    }
    return true;
  }

  /** The stretch up to the next comment, and whether it is all blank. */
  method BlankEnd(s: string, cursor: nat, end: nat) returns (triviaEnd: nat, kind: TriviaKind)
    requires cursor < end <= |s| && !StartsComment(s, cursor, end)
    ensures cursor < triviaEnd <= end
    ensures kind == if AllSpace(s, cursor, triviaEnd) then Whitespace else Other
    ensures kind == Whitespace <==> forall k :: cursor <= k < triviaEnd ==> Space(s[k])
    ensures Trivia(s, cursor, end)
         ==> && Trivia(s, triviaEnd, end) && kind == Whitespace && CommentsFrom(s, cursor) == CommentsFrom(s, triviaEnd)
             && forall pending :: SeveredFrom(s, cursor, pending) == SeveredFrom(s, triviaEnd, pending)
  {
    hide Trivia, AllSpace, IsBlank, CommentsFrom, SeveredFrom;
    triviaEnd := cursor + 1;
    ghost var trivia := Trivia(s, cursor, end);
    NoSpace(s, cursor);
    if trivia {
      BlankHead(s, cursor, cursor, end);
    }
    while triviaEnd < end && !(s[triviaEnd] == '/' && triviaEnd + 1 < end && s[triviaEnd + 1] == '/')
      invariant cursor < triviaEnd <= end
      invariant trivia ==> Trivia(s, triviaEnd, end) && AllSpace(s, cursor, triviaEnd)
      invariant trivia ==> CommentsFrom(s, cursor) == CommentsFrom(s, triviaEnd)
      invariant trivia ==> forall pending :: SeveredFrom(s, cursor, pending) == SeveredFrom(s, triviaEnd, pending)
    {
      if trivia {
        BlankHead(s, cursor, triviaEnd, end);
      }
      triviaEnd := triviaEnd + 1;
    }
    var all := IsAllSpace(s, cursor, triviaEnd);
    kind := if all then Whitespace else Other;
    SpaceListed(s, cursor, triviaEnd);
  }

  /** Space, tab, line feed, vertical tab, form feed and carriage return. */
  predicate Space(c: char) {
    c in {' ', '\t', '\n', '\U{000B}', '\U{000C}', '\r'}
  }

  lemma SpaceListed(s: string, b: nat, e: nat)
    requires b <= e <= |s|
    ensures AllSpace(s, b, e) <==> forall k :: b <= k < e ==> Space(s[k])
  {
    assert forall c :: IsSpace(c) <==> Space(c);
  }

  lemma NoSpace(s: string, b: nat)
    requires b <= |s|
    ensures AllSpace(s, b, b)
  {
  }

  lemma BlankHead(s: string, b: nat, i: nat, e: nat)
    requires b <= i < e <= |s| && Trivia(s, i, e) && !StartsComment(s, i, e) && AllSpace(s, b, i)
    ensures Trivia(s, i + 1, e) && AllSpace(s, b, i + 1) && CommentsFrom(s, i) == CommentsFrom(s, i + 1)
    ensures forall pending :: SeveredFrom(s, i, pending) == SeveredFrom(s, i + 1, pending)
  {
    hide Trivia, CommentsFrom, SeveredFrom;
    TriviaHead(s, i, e);
    BlankFirst(s, i);
  }

  method Reconstruct(pieces: seq<Piece>) returns (result: string)
    ensures result == TextOf(pieces)
  {
    result := "";
    for k := 0 to |pieces|
      invariant result + TextOf(pieces[k..]) == TextOf(pieces)
    {
      assert pieces[k..][1..] == pieces[k + 1..];
      result := result + pieces[k].text;
    }
    assert pieces[|pieces|..] == [];
  }

  // ------------------------------------------------------------------------ the view

  predicate InRange(s: string, t: Token) {
    t.start <= t.end <= |s|
  }

  /** The order of the view: by start, then by end. */
  predicate AtMost(a: Token, b: Token) {
    a.start < b.start || (a.start == b.start && a.end <= b.end)
  }

  predicate Ordered(ts: seq<Token>) {
    forall i, j :: 0 <= i < j < |ts| ==> AtMost(ts[i], ts[j])
  }

  function RealTokens(ts: seq<Token>): seq<Token> {
    if ts == [] then []
    else if ts[|ts| - 1].kind == EndOfFile then RealTokens(ts[..|ts| - 1])
    else RealTokens(ts[..|ts| - 1]) + [ts[|ts| - 1]]
  }

  lemma InsertedOrdered(ts: seq<Token>, t: Token, i: nat)
    requires Ordered(ts) && i <= |ts| && (i > 0 ==> AtMost(ts[i - 1], t)) && (i < |ts| ==> AtMost(t, ts[i]))
    ensures Ordered(ts[..i] + [t] + ts[i..])
  {
    var r := ts[..i] + [t] + ts[i..];
    forall k | 0 <= k < |r| ensures r[k] == if k < i then ts[k] else if k == i then t else ts[k - 1] {
    }
    forall k | 0 <= k < i ensures AtMost(ts[k], t) {
      assert k < i - 1 ==> AtMost(ts[k], ts[i - 1]);
    }
    forall k | i <= k < |ts| ensures AtMost(t, ts[k]) {
      assert i < k ==> AtMost(ts[i], ts[k]);
    }
    hide AtMost;
  }

  /** Keeps a sorted sequence sorted; a token that belongs last stays last. */
  method Insert(ts: seq<Token>, t: Token) returns (r: seq<Token>)
    requires Ordered(ts)
    ensures Ordered(r) && multiset(r) == multiset(ts) + multiset{t}
    ensures (forall u :: u in ts ==> AtMost(u, t)) ==> r == ts + [t]
  {
    hide Ordered;
    var i := |ts|;
    while i > 0 && !AtMost(ts[i - 1], t)
      invariant 0 <= i <= |ts| && (i < |ts| ==> !AtMost(ts[i], t))
    {
      i := i - 1;
    }
    InsertedOrdered(ts, t, i);
    r := ts[..i] + [t] + ts[i..];
    assert ts == ts[..i] + ts[i..];
    assert i < |ts| ==> ts[i] in ts;
  }

  lemma SortedInRange(s: string, ts: seq<Token>, r: seq<Token>)
    requires multiset(r) == multiset(ts) && forall t :: t in ts ==> InRange(s, t)
    ensures forall k :: 0 <= k < |r| ==> InRange(s, r[k])
  {
    forall k | 0 <= k < |r| ensures InRange(s, r[k]) {
      assert r[k] in multiset(r);
    }
  }

  predicate Apart(a: Token, b: Token) {
    a.end <= b.start || b.end <= a.start
  }

  /** No two tokens overlap; only empty ones may occur twice. */
  ghost predicate Disjoint(ts: seq<Token>) {
    && (forall a, b :: a in ts && b in ts && a != b ==> Apart(a, b))
    && (forall a :: multiset(ts)[a] >= 2 ==> a.start == a.end)
  }

  /** Each token ends before the next one starts. */
  predicate Chained(ts: seq<Token>) {
    forall i, j :: 0 <= i < j < |ts| ==> ts[i].end <= ts[j].start
  }

  lemma {:induction false} TwicePlaces(ts: seq<Token>, a: Token) returns (i: nat, j: nat)
    requires multiset(ts)[a] >= 2
    ensures i < j < |ts| && ts[i] == a && ts[j] == a
    decreases |ts|
  {
    var last := |ts| - 1;
    assert ts == ts[..last] + [ts[last]];
    if ts[last] == a {
      assert a in multiset(ts[..last]);
      i :| 0 <= i < last && ts[..last][i] == a;
      j := last;
    } else {
      i, j := TwicePlaces(ts[..last], a);
    }
  }

  lemma ChainedDisjoint(ts: seq<Token>)
    requires Chained(ts) && forall k :: 0 <= k < |ts| ==> ts[k].start <= ts[k].end
    ensures Disjoint(ts)
  {
    forall a, b | a in ts && b in ts && a != b ensures Apart(a, b) {
      var i :| 0 <= i < |ts| && ts[i] == a;
      var j :| 0 <= j < |ts| && ts[j] == b;
    }
    forall a | multiset(ts)[a] >= 2 ensures a.start == a.end {
      var i, j := TwicePlaces(ts, a);
    }
  }

  lemma SameDisjoint(a: seq<Token>, b: seq<Token>)
    requires multiset(a) == multiset(b)
    ensures Disjoint(a) == Disjoint(b)
  {
    hide Apart;
    forall t ensures t in a <==> t in b {
      assert t in multiset(a) <==> t in multiset(b);
    }
  }

  lemma InOrder(ts: seq<Token>, k: nat)
    requires 0 < k < |ts| && Ordered(ts)
    ensures AtMost(ts[k - 1], ts[k])
  {
  }

  lemma Repeated(ts: seq<Token>, k: nat)
    requires 0 < k < |ts| && ts[k - 1] == ts[k]
    ensures multiset(ts)[ts[k]] >= 2
  {
    assert ts == ts[..k] + ts[k..];
    assert ts[..k][k - 1] in multiset(ts[..k]) && ts[k..][0] in multiset(ts[k..]);
  }

  /** Two neighbours in order that overlap. */
  lemma OverlapFound(ts: seq<Token>, k: nat)
    requires 0 < k < |ts| && Ordered(ts) && ts[k].start < ts[k - 1].end && ts[k].start <= ts[k].end
    ensures !Disjoint(ts)
  {
    hide Ordered;
    InOrder(ts, k);
    if ts[k - 1] == ts[k] {
      Repeated(ts, k);
    } else {
      assert ts[k - 1] in ts && ts[k] in ts;
    }
  }

  method Sort(ts: seq<Token>) returns (r: seq<Token>)
    ensures Ordered(r) && multiset(r) == multiset(ts)
    ensures Ordered(ts) ==> r == ts
  {
    hide Ordered, AtMost;
    r := [];
    NothingOrdered();
    for k := 0 to |ts|
      invariant Ordered(r) && multiset(r) == multiset(ts[..k])
      invariant Ordered(ts) ==> r == ts[..k]
    {
      assert ts[..k + 1] == ts[..k] + [ts[k]];
      if Ordered(ts) {
        LastInOrder(ts, k);
      }
      r := Insert(r, ts[k]);
    }
    assert ts[..|ts|] == ts;
  }

  lemma NothingOrdered()
    ensures Ordered([])
  {
  }

  lemma LastInOrder(ts: seq<Token>, k: nat)
    requires Ordered(ts) && k < |ts|
    ensures forall u :: u in ts[..k] ==> AtMost(u, ts[k])
  {
  }

  method Collect(s: string, tokens: seq<Token>) returns (ok: bool, kept: seq<Token>)
    ensures ok == forall t :: t in RealTokens(tokens) ==> InRange(s, t)
    ensures ok ==> kept == RealTokens(tokens)
  {
    kept := [];
    for k := 0 to |tokens|
      invariant kept == RealTokens(tokens[..k]) && forall t :: t in kept ==> InRange(s, t)
    {
      assert tokens[..k + 1][..k] == tokens[..k];
      if tokens[k].kind != EndOfFile {
        if !InRange(s, tokens[k]) {
          OutOfRange(s, tokens, k);
          return false, [];
        }
        kept := kept + [tokens[k]];
      }
    }
    assert tokens[..|tokens|] == tokens;
    return true, kept;
  }

  lemma {:induction false} OutOfRange(s: string, tokens: seq<Token>, k: nat)
    requires k < |tokens| && tokens[k].kind != EndOfFile
    ensures tokens[k] in RealTokens(tokens)
    decreases |tokens|
  {
    if k < |tokens| - 1 {
      OutOfRange(s, tokens[..|tokens| - 1], k);
    }
  }

  lemma {:induction false} TilesInOrder(s: string, cursor: nat, ts: seq<Token>)
    requires cursor <= |s| && Tiles(s, cursor, ts)
    ensures Ordered(ts) && forall k :: 0 <= k < |ts| ==> cursor <= ts[k].start && InRange(s, ts[k])
    decreases |ts|
  {
    if ts != [] {
      TilesInOrder(s, ts[0].end, ts[1..]);
      forall i, j | 0 <= i < j < |ts| ensures AtMost(ts[i], ts[j]) {
        assert ts[j] == ts[1..][j - 1];
        if i > 0 {
          assert ts[i] == ts[1..][i - 1];
        }
      }
      forall k | 0 <= k < |ts| ensures cursor <= ts[k].start && InRange(s, ts[k]) {
        if k > 0 {
          assert ts[k] == ts[1..][k - 1];
        }
      }
    }
  }

  /** Appends the trivia before a token and the token. */
  method AppendToken(pieces: seq<Piece>, s: string, cursor: nat, token: Token) returns (more: seq<Piece>)
    requires cursor <= token.start <= token.end <= |s| && Cover(s, 0, cursor, pieces)
    ensures Cover(s, 0, token.end, more) && TokensOf(more) == TokensOf(pieces) + [token]
    ensures NoOther(pieces) && Trivia(s, cursor, token.start) ==> NoOther(more)
    ensures Trivia(s, cursor, token.start)
         ==> CommentsOf(more) + CommentsFrom(s, token.start) == CommentsOf(pieces) + CommentsFrom(s, cursor)
    ensures !CommentPending(more) && |SeveredOf(more)| == |SeveredOf(pieces)| + 1
    ensures Trivia(s, cursor, token.start) && token.start < |s| && ScanAt(s, token.start) == Found(token.kind, token.end)
         ==> SeveredOf(more) + SeveredFrom(s, token.end, false)
             == SeveredOf(pieces) + SeveredFrom(s, cursor, CommentPending(pieces))
  {
    hide Cover, TokensOf, CommentsOf, CommentsFrom, Trivia, SeveredOf, SeveredFrom, CommentPending, ScanAt;
    more := pieces;
    if token.start > cursor {
      more := AppendTrivia(pieces, s, cursor, token.start);
    }
    var piece := TokenPiece(token, token.start, token.end, s[token.start..token.end]);
    CoverMore(s, 0, token.start, token.end, more, piece);
    TokensOfMore(more, piece);
    CommentsOfMore(more, piece);
    SeveredMore(more, piece);
    if token.start < |s| && ScanAt(s, token.start) == Found(token.kind, token.end) {
      SeveredToken(s, token.start, CommentPending(more));
    }
    more := more + [piece];
  }

  lemma SeveredToken(s: string, i: nat, pending: bool)
    requires i < |s| && ScanAt(s, i).Found?
    ensures SeveredFrom(s, i, pending) == [pending] + SeveredFrom(s, ScanAt(s, i).end, false)
  {
    hide ScanAt;
  }

  /** Fails exactly for tokens that overlap or leave the source; otherwise the pieces cover the
      source and keep every token.
   */
  method BuildView(s: string, tokens: seq<Token>) returns (ok: bool, pieces: seq<Piece>)
    ensures ok <==> Disjoint(RealTokens(tokens)) && forall t :: t in RealTokens(tokens) ==> InRange(s, t)
    ensures ok ==> Cover(s, 0, |s|, pieces) && multiset(TokensOf(pieces)) == multiset(RealTokens(tokens))
    ensures Tiles(s, 0, RealTokens(tokens)) ==> ok && NoOther(pieces) && TokensOf(pieces) == RealTokens(tokens)
    ensures Tiles(s, 0, RealTokens(tokens)) ==> CommentsOf(pieces) == CommentsFrom(s, 0)
    ensures Tiles(s, 0, RealTokens(tokens)) ==> SeveredOf(pieces) == SeveredFrom(s, 0, false)
  {
    hide Cover, TokensOf, CommentsOf, CommentsFrom, Ordered, Tiles, RealTokens, Trivia, Disjoint, Chained, SeveredOf,
      SeveredFrom, CommentPending, ScanAt;
    pieces := [];
    var kept;
    ok, kept := Collect(s, tokens);
    if Tiles(s, 0, RealTokens(tokens)) {
      TilesInOrder(s, 0, RealTokens(tokens));
    }
    if !ok {
      return;
    }
    var ordered := Sort(kept);
    ghost var lexed := Tiles(s, 0, RealTokens(tokens));
    SortedInRange(s, kept, ordered);
    SameDisjoint(kept, ordered);
    var cursor: nat := 0;
    NoPieces(s, ordered);
    for k := 0 to |ordered|
      invariant ok && cursor <= |s| && Cover(s, 0, cursor, pieces) && TokensOf(pieces) == ordered[..k]
      invariant lexed ==> NoOther(pieces) && Tiles(s, cursor, ordered[k..])
      invariant lexed ==> CommentsOf(pieces) + CommentsFrom(s, cursor) == CommentsFrom(s, 0)
      invariant lexed ==> !CommentPending(pieces) && SeveredOf(pieces) + SeveredFrom(s, cursor, false) == SeveredFrom(s, 0, false)
      invariant Chained(ordered[..k]) && cursor == if k == 0 then 0 else ordered[k - 1].end
    {
      var token := ordered[k];
      assert InRange(s, token);
      if lexed {
        TilesHead(s, cursor, ordered[k..]);
        assert ordered[k..][1..] == ordered[k + 1..];
      }
      if token.start < cursor {
        OverlapFound(ordered, k);
        return false, [];
      }
      ChainedMore(s, ordered, k);
      assert ordered[..k + 1] == ordered[..k] + [token];
      pieces := AppendToken(pieces, s, cursor, token);
      cursor := token.end;
    }
    if lexed {
      assert ordered[|ordered|..] == [];
      TilesEnd(s, cursor);
    }
    if cursor < |s| {
      pieces := AppendTrivia(pieces, s, cursor, |s|);
    }
    assert ordered[..|ordered|] == ordered;
    ChainedDisjoint(ordered);
  }

  lemma ChainedMore(s: string, ts: seq<Token>, k: nat)
    requires k < |ts| && Chained(ts[..k]) && (k > 0 ==> ts[k - 1].end <= ts[k].start)
    requires forall j :: 0 <= j < |ts| ==> InRange(s, ts[j])
    ensures Chained(ts[..k + 1])
  {
    var before, more := ts[..k], ts[..k + 1];
    forall i, j | 0 <= i < j < |more| ensures more[i].end <= more[j].start {
      if j < k {
        assert before[i].end <= before[j].start;
      } else if i < k - 1 {
        assert before[i].end <= before[k - 1].start;
      }
    }
  }

  lemma NoPieces(s: string, ordered: seq<Token>)
    ensures Cover(s, 0, 0, []) && TokensOf([]) == ordered[..0] && ordered[0..] == ordered && Chained(ordered[..0])
    ensures CommentsOf([]) == [] && SeveredOf([]) == [] && !CommentPending([])
  {
  }

  lemma TilesHead(s: string, cursor: nat, ts: seq<Token>)
    requires cursor <= |s| && ts != [] && Tiles(s, cursor, ts)
    ensures cursor <= ts[0].start < ts[0].end <= |s| && Trivia(s, cursor, ts[0].start) && Tiles(s, ts[0].end, ts[1..])
    ensures CommentsFrom(s, ts[0].start) == CommentsFrom(s, ts[0].end)
    ensures ScanAt(s, ts[0].start) == Found(ts[0].kind, ts[0].end)
  {
    hide ScanAt;
  }

  lemma TilesEnd(s: string, cursor: nat)
    requires cursor <= |s| && Tiles(s, cursor, [])
    ensures Trivia(s, cursor, |s|) && CommentsFrom(s, |s|) == []
    ensures forall pending :: SeveredFrom(s, |s|, pending) == []
  {
  }

  lemma RealOfLexed(ts: seq<Token>, end: Token)
    requires end.kind == EndOfFile && forall k :: 0 <= k < |ts| ==> ts[k].kind != EndOfFile
    ensures RealTokens(ts + [end]) == ts
  {
    assert (ts + [end])[..|ts|] == ts;
    RealOfReal(ts);
  }

  lemma {:induction false} RealOfReal(ts: seq<Token>)
    requires forall k :: 0 <= k < |ts| ==> ts[k].kind != EndOfFile
    ensures RealTokens(ts) == ts
    decreases |ts|
  {
    if ts != [] {
      RealOfReal(ts[..|ts| - 1]);
    }
  }

  lemma {:induction false} NoEndInside(s: string, i: nat)
    requires i <= |s|
    ensures forall k :: 0 <= k < |TokensFrom(s, i)| ==> TokensFrom(s, i)[k].kind != EndOfFile
    decreases |s| - i
  {
    if i < |s| {
      NoEndInside(s, ScanAt(s, i).end);
    }
  }

  /** Every source that lexes without error is rebuilt byte for byte, with no piece of unknown kind. */
  method RoundTrip(source: string) returns (lexed: bool, pieces: seq<Piece>, rebuilt: string)
    ensures lexed == Clean(source, 0)
    ensures lexed ==> rebuilt == source && NoOther(pieces)
    ensures lexed ==> TokensOf(pieces) == TokensFrom(source, 0) && CommentsOf(pieces) == CommentsFrom(source, 0)
    ensures lexed ==> SeveredOf(pieces) == SeveredFrom(source, 0, false)
  {
    hide Cover, CommentsOf, CommentsFrom, TokensOf, Tiles, RealTokens, Clean, TokensFrom, TextOf, SeveredOf, SeveredFrom;
    pieces, rebuilt := [], "";
    var lexer := new LexerState(source);
    var tokens;
    lexed, tokens := lexer.ScanTokens();
    if lexed {
      NoEndInside(source, 0);
      RealOfLexed(TokensFrom(source, 0), Token(EndOfFile, "", |source|, |source|));
      assert tokens[..|tokens| - 1] == TokensFrom(source, 0);
      var ok;
      ok, pieces := BuildView(source, tokens);
      CoverText(source, 0, |source|, pieces);
      rebuilt := Reconstruct(pieces);
      assert source[0..|source|] == source;
    }
  }
}
