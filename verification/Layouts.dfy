/** Texts laid out from lexemes, comments and blanks, and when lexing them gives the lexemes back. */
module Layouts {
  import opened Lexer

  datatype Segment = Lexeme(token: Token) | Comment(text: string) | Blank(c: char)

  function SegmentText(seg: Segment): string {
    match seg
    case Lexeme(token) => token.lexeme
    case Comment(text) => text
    case Blank(c) => [c]
  }

  function TextOf(segs: seq<Segment>): string {
    if segs == [] then "" else TextOf(segs[..|segs| - 1]) + SegmentText(segs[|segs| - 1])
  }

  lemma TextMore(segs: seq<Segment>, seg: Segment)
    ensures TextOf(segs + [seg]) == TextOf(segs) + SegmentText(seg)
  {
    assert (segs + [seg])[..|segs|] == segs;
  }

  /** Every segment stands at the end of the text of the segments before it. */
  lemma {:induction false} Placed(segs: seq<Segment>, k: nat)
    requires k < |segs|
    ensures
      var t, p, q := TextOf(segs), |TextOf(segs[..k])|, |TextOf(segs[..k + 1])|;
      p <= q <= |t| && t[p..q] == SegmentText(segs[k])
    decreases |segs|
  {
    hide TextOf;
    var less, last := segs[..|segs| - 1], segs[|segs| - 1];
    assert segs == less + [last];
    TextMore(less, last);
    if k < |less| {
      Placed(less, k);
      assert less[..k] == segs[..k] && less[..k + 1] == segs[..k + 1];
      SliceKept(TextOf(less), SegmentText(last), |TextOf(segs[..k])|, |TextOf(segs[..k + 1])|);
    } else {
      assert segs[..k] == less && segs[..k + 1] == segs;
    }
  }

  lemma SliceKept(a: string, b: string, p: nat, q: nat)
    requires p <= q <= |a|
    ensures (a + b)[p..q] == a[p..q]
  {
  }

  /** A text without the spaces at its end. */
  function Trimmed(s: string): (r: string)
    ensures r <= s && (r != "" ==> r[|r| - 1] != ' ') && forall k :: |r| <= k < |s| ==> s[k] == ' '
  {
    if s != "" && s[|s| - 1] == ' ' then Trimmed(s[..|s| - 1]) else s
  }

  function TrimmedAll(ss: seq<string>): seq<string> {
    if ss == [] then [] else [Trimmed(ss[0])] + TrimmedAll(ss[1..])
  }

  /** The lexeme alone lexes to the token. */
  predicate LexemeRight(t: Token) {
    t.lexeme != [] && ScanAt(t.lexeme, 0) == Found(t.kind, |t.lexeme|)
  }

  predicate SegmentRight(seg: Segment) {
    match seg
    case Lexeme(token) => LexemeRight(token)
    case Comment(text) => IsComment(text)
    case Blank(c) => c == ' ' || c == '\n'
  }

  /** The second lexeme may follow the first without a blank. */
  predicate Apart(a: Token, b: Token) {
    b.lexeme != [] ==> !Extends(a.kind, b.lexeme[0])
  }

  /** `=` before `>`, which would read as one arrow. */
  predicate Arrow(a: Token, b: Token) {
    a.kind == Equal && b.kind == Greater
  }

  /** What a layout lets stand next to what: lexemes that do not run together, but arrows too, and
      comments after a blank and before a newline. */
  predicate Adjacent(a: Segment, b: Segment) {
    match a
    case Lexeme(token) => if b.Lexeme? then Apart(token, b.token) || Arrow(token, b.token) else b.Blank?
    case Comment(_) => b == Blank('\n')
    case Blank(_) => true
  }

  predicate Fits(segs: seq<Segment>, i: nat)
    requires i < |segs|
  {
    SegmentRight(segs[i]) && (i > 0 ==> Adjacent(segs[i - 1], segs[i]))
  }

  predicate Laid(segs: seq<Segment>) {
    forall i: nat :: i < |segs| ==> Fits(segs, i)
  }

  lemma LaidMore(segs: seq<Segment>, seg: Segment)
    requires Laid(segs) && SegmentRight(seg) && (segs != [] ==> Adjacent(segs[|segs| - 1], seg))
    ensures Laid(segs + [seg])
  {
    hide SegmentRight, Adjacent;
    var more := segs + [seg];
    forall i: nat | i < |more| ensures Fits(more, i) {
      assert i < |segs| ==> Fits(segs, i);
    }
  }

  lemma LaidLess(segs: seq<Segment>)
    requires Laid(segs) && segs != []
    ensures Laid(segs[..|segs| - 1])
    ensures SegmentRight(segs[|segs| - 1])
    ensures |segs| > 1 ==> Adjacent(segs[|segs| - 2], segs[|segs| - 1])
  {
    hide SegmentRight, Adjacent;
    var less := segs[..|segs| - 1];
    assert Fits(segs, |segs| - 1);
    forall i: nat | i < |less| ensures Fits(less, i) {
      assert Fits(segs, i);
    }
  }

  /** The tokens laid out from segment `k` on. */
  function LexemesIn(segs: seq<Segment>, k: nat): seq<Token>
    requires k <= |segs|
    decreases |segs| - k
  {
    if k == |segs| then []
    else (if segs[k].Lexeme? then [segs[k].token] else []) + LexemesIn(segs, k + 1)
  }

  /** The comments from segment `k` on, without the spaces at their ends. */
  function CommentsIn(segs: seq<Segment>, k: nat): seq<string>
    requires k <= |segs|
    decreases |segs| - k
  {
    if k == |segs| then []
    else (if segs[k].Comment? then [Trimmed(segs[k].text)] else []) + CommentsIn(segs, k + 1)
  }

  /** Of each lexeme from segment `k` on, whether it stands directly behind another. */
  function JointsIn(segs: seq<Segment>, k: nat): seq<bool>
    requires k <= |segs|
    decreases |segs| - k
  {
    if k == |segs| then [] else (if segs[k].Lexeme? then [Behind(segs[..k])] else []) + JointsIn(segs, k + 1)
  }

  /** What is written next stands directly behind a lexeme. */
  predicate Behind(segs: seq<Segment>) {
    segs != [] && segs[|segs| - 1].Lexeme?
  }

  lemma ItemsFirst(segs: seq<Segment>, k: nat)
    requires k < |segs|
    ensures
      var rest := LexemesIn(segs, k + 1);
      LexemesIn(segs, k) == if segs[k].Lexeme? then [segs[k].token] + rest else rest
    ensures
      var rest := CommentsIn(segs, k + 1);
      CommentsIn(segs, k) == if segs[k].Comment? then [Trimmed(segs[k].text)] + rest else rest
    ensures
      var rest := JointsIn(segs, k + 1);
      JointsIn(segs, k) == if segs[k].Lexeme? then [Behind(segs[..k])] + rest else rest
  {
  }

  lemma ItemsEnd(segs: seq<Segment>)
    ensures LexemesIn(segs, |segs|) == [] && CommentsIn(segs, |segs|) == [] && JointsIn(segs, |segs|) == []
  {
  }

  lemma {:induction false} ItemsMore(segs: seq<Segment>, seg: Segment, k: nat)
    requires k <= |segs|
    ensures LexemesIn(segs + [seg], k) == LexemesIn(segs, k) + (if seg.Lexeme? then [seg.token] else [])
    ensures CommentsIn(segs + [seg], k) == CommentsIn(segs, k) + (if seg.Comment? then [Trimmed(seg.text)] else [])
    ensures JointsIn(segs + [seg], k) == JointsIn(segs, k) + (if seg.Lexeme? then [Behind(segs)] else [])
    decreases |segs| - k
  {
    hide Trimmed, LexemesIn, CommentsIn, JointsIn, Behind;
    ItemsFirst(segs + [seg], k);
    assert (segs + [seg])[..k] == segs[..k];
    if k == |segs| {
      ItemsEnd(segs);
      ItemsEnd(segs + [seg]);
      assert segs[..k] == segs;
    } else {
      ItemsFirst(segs, k);
      ItemsMore(segs, seg, k + 1);
    }
  }

  /** A number without a fraction. */
  predicate Whole(token: Token) {
    token.kind == Number && '.' !in token.lexeme
  }

  /** What would read as one arrow or as one number, if nothing stood between. */
  predicate Merges(tokens: seq<Token>, joints: seq<bool>, i: nat)
    requires |joints| == |tokens| && i + 1 < |tokens|
  {
    || (Arrow(tokens[i], tokens[i + 1]) && joints[i + 1])
    || (i + 2 < |tokens| && Whole(tokens[i]) && tokens[i + 1].kind == Dot && tokens[i + 2].kind == Number
        && joints[i + 1] && joints[i + 2])
  }

  /** No lexemes run together. */
  predicate Smooth(tokens: seq<Token>, joints: seq<bool>)
    requires |joints| == |tokens|
  {
    forall i: nat :: i + 1 < |tokens| ==> !Merges(tokens, joints, i)
  }

  lemma {:induction false} SameCount(segs: seq<Segment>, k: nat)
    requires k <= |segs|
    ensures |JointsIn(segs, k)| == |LexemesIn(segs, k)|
    decreases |segs| - k
  {
    hide LexemesIn, JointsIn, CommentsIn, Trimmed;
    if k == |segs| {
      ItemsEnd(segs);
    } else {
      SameCount(segs, k + 1);
      ItemsFirst(segs, k);
    }
  }

  /** The lexemes of the segment and of the next one or two run together. */
  predicate MergesAt(segs: seq<Segment>, k: nat)
    requires k < |segs|
  {
    && segs[k].Lexeme? && k + 1 < |segs| && segs[k + 1].Lexeme?
    && (|| Arrow(segs[k].token, segs[k + 1].token)
        || (k + 2 < |segs| && segs[k + 2].Lexeme? && Whole(segs[k].token) && segs[k + 1].token.kind == Dot
            && segs[k + 2].token.kind == Number))
  }

  /** Behind a blank or a comment no lexeme is joined to the one before. */
  lemma {:induction false} FirstJoint(segs: seq<Segment>, k: nat)
    requires k <= |segs| && !Behind(segs[..k])
    ensures JointsIn(segs, k) != [] ==> !JointsIn(segs, k)[0]
    decreases |segs| - k
  {
    hide LexemesIn, JointsIn, CommentsIn, Trimmed;
    if k == |segs| {
      ItemsEnd(segs);
    } else {
      ItemsFirst(segs, k);
      if !segs[k].Lexeme? {
        assert segs[..k + 1][|segs[..k + 1]| - 1] == segs[k];
        FirstJoint(segs, k + 1);
      }
    }
  }

  /** The first lexeme after segment `k`, when it is joined to it. */
  lemma NextJoint(segs: seq<Segment>, k: nat)
    requires k < |segs| && segs[k].Lexeme?
    ensures
      var tokens, joints := LexemesIn(segs, k + 1), JointsIn(segs, k + 1);
      |joints| == |tokens|
      && if k + 1 < |segs| && segs[k + 1].Lexeme? then tokens != [] && tokens[0] == segs[k + 1].token && joints[0]
         else tokens != [] ==> !joints[0]
  {
    hide LexemesIn, JointsIn, CommentsIn, Trimmed;
    SameCount(segs, k + 1);
    if k + 1 == |segs| {
      ItemsEnd(segs);
    } else {
      ItemsFirst(segs, k + 1);
      assert segs[..k + 1][|segs[..k + 1]| - 1] == segs[k];
      if !segs[k + 1].Lexeme? {
        assert segs[..k + 2][|segs[..k + 2]| - 1] == segs[k + 1];
        FirstJoint(segs, k + 2);
      }
    }
  }

  /** Whether lexemes run together is told by the tokens and the joints. */
  lemma MergesHead(segs: seq<Segment>, k: nat)
    requires k < |segs| && segs[k].Lexeme?
    ensures |JointsIn(segs, k)| == |LexemesIn(segs, k)| > 0
    ensures MergesAt(segs, k) <==> |LexemesIn(segs, k)| > 1 && Merges(LexemesIn(segs, k), JointsIn(segs, k), 0)
  {
    hide LexemesIn, JointsIn, CommentsIn, Trimmed, Whole, Arrow, Behind;
    ItemsFirst(segs, k);
    SameCount(segs, k);
    NextJoint(segs, k);
    if k + 1 < |segs| && segs[k + 1].Lexeme? {
      ItemsFirst(segs, k + 1);
      NextJoint(segs, k + 1);
    }
  }

  lemma SmoothFirst(token: Token, joint: bool, tokens: seq<Token>, joints: seq<bool>)
    requires |joints| == |tokens|
    ensures
      Smooth([token] + tokens, [joint] + joints)
      <==> Smooth(tokens, joints) && (tokens != [] ==> !Merges([token] + tokens, [joint] + joints, 0))
  {
    hide Whole, Arrow;
    var more, all := [token] + tokens, [joint] + joints;
    forall i: nat | i + 1 < |tokens| ensures Merges(more, all, i + 1) <==> Merges(tokens, joints, i) {
      assert more[i + 1] == tokens[i] && more[i + 2] == tokens[i + 1] && all[i + 2] == joints[i + 1];
      if i + 2 < |tokens| {
        assert more[i + 3] == tokens[i + 2] && all[i + 3] == joints[i + 2];
      }
    }
    if Smooth(tokens, joints) && (tokens != [] ==> !Merges(more, all, 0)) {
      forall i: nat | i + 1 < |more| ensures !Merges(more, all, i) {
        if i > 0 {
          assert !Merges(tokens, joints, i - 1);
        }
      }
    }
    if Smooth(more, all) {
      forall i: nat | i + 1 < |tokens| ensures !Merges(tokens, joints, i) {
        assert !Merges(more, all, i + 1);
      }
    }
  }

  predicate SmoothFrom(segs: seq<Segment>, k: nat)
    requires k <= |segs|
  {
    |JointsIn(segs, k)| == |LexemesIn(segs, k)| && Smooth(LexemesIn(segs, k), JointsIn(segs, k))
  }

  lemma SmoothStep(segs: seq<Segment>, k: nat)
    requires k < |segs|
    ensures SmoothFrom(segs, k) <==> !MergesAt(segs, k) && SmoothFrom(segs, k + 1)
  {
    hide LexemesIn, JointsIn, CommentsIn, Trimmed, MergesAt, Merges, Smooth, Behind;
    SameCount(segs, k);
    SameCount(segs, k + 1);
    ItemsFirst(segs, k);
    if segs[k].Lexeme? {
      MergesHead(segs, k);
      SmoothFirst(segs[k].token, Behind(segs[..k]), LexemesIn(segs, k + 1), JointsIn(segs, k + 1));
    } else {
      NotMerging(segs, k);
    }
  }

  lemma NotMerging(segs: seq<Segment>, k: nat)
    requires k < |segs| && !segs[k].Lexeme?
    ensures !MergesAt(segs, k)
  {
  }

  /** A lexeme is read as its token wherever it stands and stops. */
  lemma LexemeInPlace(token: Token, t: string, p: nat)
    requires LexemeRight(token) && p + |token.lexeme| <= |t| && t[p..p + |token.lexeme|] == token.lexeme
    requires Stops(token.kind, t, p + |token.lexeme|)
    ensures ScanAt(t, p) == Found(token.kind, p + |token.lexeme|)
  {
    hide ScanAt, Stops;
    var n := |token.lexeme|;
    assert token.lexeme[0..0 + n] == token.lexeme;
    Relexed(token.lexeme, 0, t, p, n);
  }

  lemma {:induction false} CommentInPlace(text: string, t: string, p: nat)
    requires IsComment(text) && p + |text| <= |t| && t[p..p + |text|] == text
    requires p + |text| < |t| ==> t[p + |text|] == '\n'
    ensures ScanAt(t, p) == Skipped(p + |text|) && t[p] == '/'
  {
    forall k | 0 <= k < |text| ensures t[p + k] == text[k] {
      assert t[p..p + |text|][k] == text[k];
    }
    assert t[p] == text[0] && t[p + 1] == text[1];
    FoundAt(t, '\n', p + 2, p + |text|);
  }

  lemma DotAlone(token: Token)
    requires LexemeRight(token) && token.lexeme[0] == '.'
    ensures token.kind == Dot && |token.lexeme| == 1
  {
  }

  lemma DigitFirst(token: Token)
    requires LexemeRight(token) && IsDigit(token.lexeme[0])
    ensures token.kind == Number
  {
  }

  /** What stands where the text of segment `k` begins, if there is such a segment. */
  predicate Begins(segs: seq<Segment>, k: nat)
    requires k < |segs|
  {
    var t, p := TextOf(segs), |TextOf(segs[..k])|;
    p < |t| && SegmentText(segs[k]) != [] && t[p] == SegmentText(segs[k])[0]
  }

  lemma SegmentBegins(segs: seq<Segment>, k: nat)
    requires Laid(segs) && k < |segs|
    ensures Begins(segs, k) && SegmentRight(segs[k])
    ensures |TextOf(segs[..k + 1])| == |TextOf(segs[..k])| + |SegmentText(segs[k])|
  {
    hide TextOf;
    assert Fits(segs, k);
    Placed(segs, k);
    var t, p, q := TextOf(segs), |TextOf(segs[..k])|, |TextOf(segs[..k + 1])|;
    assert t[p] == t[p..q][0];
  }

  /** Unless lexemes run together, what follows a lexeme in a layout does not continue it. */
  lemma LexemeEnds(segs: seq<Segment>, k: nat)
    requires Laid(segs) && k < |segs| && segs[k].Lexeme? && !MergesAt(segs, k)
    ensures
      var t, e := TextOf(segs), |TextOf(segs[..k + 1])|;
      && (e < |t| ==> !Extends(segs[k].token.kind, t[e]))
      && (Whole(segs[k].token) && e + 1 < |t| && t[e] == '.' ==> !IsDigit(t[e + 1]))
  {
    hide TextOf, LexemeRight, IsComment, Extends, IsDigit, Whole;
    var t, e := TextOf(segs), |TextOf(segs[..k + 1])|;
    if k + 1 == |segs| {
      assert segs[..k + 1] == segs;
      return;
    }
    SegmentBegins(segs, k + 1);
    assert Fits(segs, k + 1);
    if segs[k + 1].Blank? {
      BlankStops(segs[k].token.kind, t, e);
    } else if Whole(segs[k].token) && t[e] == '.' && e + 1 < |t| {
      NoDigitAfterDot(segs, k);
    }
  }

  lemma NoDigitAfterDot(segs: seq<Segment>, k: nat)
    requires Laid(segs) && k + 1 < |segs| && segs[k].Lexeme? && segs[k + 1].Lexeme?
    requires Whole(segs[k].token) && !MergesAt(segs, k)
    requires Begins(segs, k + 1) && SegmentText(segs[k + 1])[0] == '.'
    ensures
      var t, e := TextOf(segs), |TextOf(segs[..k + 1])|;
      e + 1 < |t| ==> !IsDigit(t[e + 1])
  {
    hide TextOf, LexemeRight, IsComment, Extends, IsDigit, Whole;
    SegmentBegins(segs, k + 1);
    DotAlone(segs[k + 1].token);
    if k + 2 == |segs| {
      assert segs[..k + 2] == segs;
    } else {
      SegmentBegins(segs, k + 2);
      if segs[k + 2].Lexeme? {
        if IsDigit(segs[k + 2].token.lexeme[0]) {
          DigitFirst(segs[k + 2].token);
        }
      } else {
        assert Fits(segs, k + 2);
        NotDigit();
      }
    }
  }

  lemma NotDigit()
    ensures !IsDigit(' ') && !IsDigit('\n')
  {
  }

  /** A number with a fraction ends before a dot. */
  lemma FractionInPlace(token: Token, t: string, p: nat)
    requires LexemeRight(token) && token.kind == Number && !Whole(token)
    requires p + |token.lexeme| <= |t| && t[p..p + |token.lexeme|] == token.lexeme
    requires p + |token.lexeme| < |t| ==> !IsDigit(t[p + |token.lexeme|])
    ensures ScanAt(t, p) == Found(Number, p + |token.lexeme|)
  {
    hide IsDigit, DigitsEnd, LexemeRight, ScanAt, NumberEnd;
    var s, n := token.lexeme, |token.lexeme|;
    NumberLexeme(token);
    assert s[0..0 + n] == s;
    SameAt(s, 0, t, p, n, 0);
    SamePart(s, 0, t, p, n, 1, n - 1);
    DotAfterDigits(s);
    FractionLocal(s, t, p + 1, n - 1);
    NumberScanned(t, p);
  }

  lemma FractionLocal(s: string, t: string, j: nat, n: nat)
    requires |s| == n + 1 && Same(s, 1, t, j, n) && (j + n < |t| ==> !IsDigit(t[j + n]))
    requires
      var e := DigitsEnd(s, 1);
      e + 1 < |s| && s[e] == '.' && IsDigit(s[e + 1]) && DigitsEnd(s, e + 1) == |s|
    ensures NumberEnd(t, j) == j + n
  {
    hide IsDigit, DigitsEnd, Same;
    var m := DigitsEnd(s, 1) - 1;
    SameLength(s, 1, t, j, n);
    SamePart(s, 1, t, j, n, 0, m);
    SameAt(s, 1, t, j, n, m);
    DotNoDigit();
    DigitsLocal(s, 1, t, j, m);
    SameAt(s, 1, t, j, n, m + 1);
    SamePart(s, 1, t, j, n, m + 1, n - m - 1);
    DigitsLocal(s, m + 2, t, j + m + 1, n - m - 1);
  }

  lemma DotNoDigit()
    ensures !IsDigit('.')
  {
  }

  lemma NumberLexeme(token: Token)
    requires LexemeRight(token) && token.kind == Number
    ensures IsDigit(token.lexeme[0]) && NumberEnd(token.lexeme, 1) == |token.lexeme|
  {
    hide IsKeyword, NumberEnd, WordEnd, Find;
  }

  lemma NumberScanned(t: string, p: nat)
    requires p < |t| && IsDigit(t[p])
    ensures ScanAt(t, p) == Found(Number, NumberEnd(t, p + 1))
  {
    hide NumberEnd;
  }

  /** The digits of a number end at its dot. */
  lemma DotAfterDigits(s: string)
    requires |s| > 0 && IsDigit(s[0]) && NumberEnd(s, 1) == |s| && '.' in s
    ensures
      var e := DigitsEnd(s, 1);
      e + 1 < |s| && s[e] == '.' && IsDigit(s[e + 1]) && DigitsEnd(s, e + 1) == |s|
  {
    AllDigits(s, 1);
  }

  lemma {:induction false} AllDigits(s: string, i: nat)
    requires i <= |s|
    ensures forall k :: i <= k < DigitsEnd(s, i) ==> s[k] != '.'
    decreases |s| - i
  {
    if i < |s| && IsDigit(s[i]) {
      AllDigits(s, i + 1);
    }
  }

  /** A lexeme that nothing continues is read as its token. */
  lemma LexemeReads(segs: seq<Segment>, k: nat)
    requires Laid(segs) && k < |segs| && segs[k].Lexeme? && !MergesAt(segs, k)
    ensures
      var t, p, q := TextOf(segs), |TextOf(segs[..k])|, |TextOf(segs[..k + 1])|;
      p < |t| && ScanAt(t, p) == Found(segs[k].token.kind, q)
  {
    hide TextOf, Laid, LexemeRight, IsComment, Extends, IsDigit, Whole, ScanAt, MergesAt;
    SegmentBegins(segs, k);
    Placed(segs, k);
    LexemeEnds(segs, k);
    var t, p := TextOf(segs), |TextOf(segs[..k])|;
    if segs[k].token.kind == Number && !Whole(segs[k].token) {
      DigitExtends();
      FractionInPlace(segs[k].token, t, p);
    } else {
      OtherwiseWhole(segs[k].token);
      LexemeInPlace(segs[k].token, t, p);
    }
  }

  lemma DigitExtends()
    ensures forall c :: Extends(Number, c) <==> IsDigit(c)
  {
  }

  lemma OtherwiseWhole(token: Token)
    requires token.kind == Number ==> Whole(token)
    ensures Whole(token) <==> token.kind == Number
  {
  }

  // ----------------------------------------------------------------- reading a layout

  lemma AfterSkipped(t: string, p: nat, q: nat)
    requires p < |t| && ScanAt(t, p) == Skipped(q)
    ensures q <= |t| && TokensFrom(t, p) == TokensFrom(t, q) && Clean(t, p) == Clean(t, q)
    ensures CommentsFrom(t, p) == if t[p] == '/' then [t[p..q]] + CommentsFrom(t, q) else CommentsFrom(t, q)
  {
    hide ScanAt;
  }

  lemma AfterFound(t: string, p: nat, kind: TokenType, q: nat)
    requires p < |t| && ScanAt(t, p) == Found(kind, q)
    ensures q <= |t| && TokensFrom(t, p) == [Token(kind, t[p..q], p, q)] + TokensFrom(t, q)
    ensures Clean(t, p) == Clean(t, q)
    ensures CommentsFrom(t, p) == CommentsFrom(t, q)
  {
    hide ScanAt;
  }

  lemma SameTokensMore(x: Token, a: seq<Token>, y: Token, b: seq<Token>)
    requires x.kind == y.kind && x.lexeme == y.lexeme
    ensures SameTokens([x] + a, [y] + b) <==> SameTokens(a, b)
  {
    if SameTokens([x] + a, [y] + b) {
      forall k | 0 <= k < |a| ensures a[k].kind == b[k].kind && a[k].lexeme == b[k].lexeme {
        assert a[k] == ([x] + a)[k + 1] && b[k] == ([y] + b)[k + 1];
      }
    }
  }

  lemma TrimmedMore(text: string, texts: seq<string>)
    ensures TrimmedAll([text] + texts) == [Trimmed(text)] + TrimmedAll(texts)
  {
    hide Trimmed;
    assert ([text] + texts)[1..] == texts;
  }

  /** From position `p` on, the text reads as the segments from `k` on. */
  predicate Reads(segs: seq<Segment>, k: nat, p: nat)
    requires k <= |segs|
  {
    var t := TextOf(segs);
    && p <= |t| && Clean(t, p) && SameTokens(TokensFrom(t, p), LexemesIn(segs, k))
    && TrimmedAll(CommentsFrom(t, p)) == CommentsIn(segs, k)
  }

  lemma ReadBlank(segs: seq<Segment>, k: nat, p: nat, q: nat)
    requires k < |segs| && segs[k].Blank?
    requires p < |TextOf(segs)| && ScanAt(TextOf(segs), p) == Skipped(q) && TextOf(segs)[p] != '/'
    ensures Reads(segs, k, p) <==> Reads(segs, k + 1, q)
  {
    hide TextOf, LexemesIn, CommentsIn, TokensFrom, CommentsFrom, Clean, SameTokens, ScanAt, TrimmedAll;
    AfterSkipped(TextOf(segs), p, q);
    ItemsFirst(segs, k);
  }

  lemma ReadComment(segs: seq<Segment>, k: nat, p: nat, q: nat)
    requires k < |segs| && segs[k].Comment?
    requires p < |TextOf(segs)| && ScanAt(TextOf(segs), p) == Skipped(q) && TextOf(segs)[p] == '/'
    requires p <= q <= |TextOf(segs)| && TextOf(segs)[p..q] == segs[k].text
    ensures Reads(segs, k, p) <==> Reads(segs, k + 1, q)
  {
    hide TextOf, LexemesIn, CommentsIn, TokensFrom, CommentsFrom, Clean, SameTokens, ScanAt, TrimmedAll, Trimmed;
    AfterSkipped(TextOf(segs), p, q);
    ItemsFirst(segs, k);
    TrimmedMore(segs[k].text, CommentsFrom(TextOf(segs), q));
    SameBehind(Trimmed(segs[k].text), TrimmedAll(CommentsFrom(TextOf(segs), q)), CommentsIn(segs, k + 1));
  }

  lemma SameBehind(text: string, a: seq<string>, b: seq<string>)
    ensures [text] + a == [text] + b <==> a == b
  {
    assert ([text] + a)[1..] == a && ([text] + b)[1..] == b;
  }

  lemma ReadLexeme(segs: seq<Segment>, k: nat, p: nat, q: nat)
    requires k < |segs| && segs[k].Lexeme?
    requires p < |TextOf(segs)| && ScanAt(TextOf(segs), p) == Found(segs[k].token.kind, q)
    requires p <= q <= |TextOf(segs)| && TextOf(segs)[p..q] == segs[k].token.lexeme
    ensures Reads(segs, k, p) <==> Reads(segs, k + 1, q)
  {
    hide TextOf, LexemesIn, CommentsIn, TokensFrom, CommentsFrom, Clean, SameTokens, ScanAt, TrimmedAll;
    var t := TextOf(segs);
    AfterFound(t, p, segs[k].token.kind, q);
    ItemsFirst(segs, k);
    SameTokensMore(
      Token(segs[k].token.kind, t[p..q], p, q), TokensFrom(t, q), segs[k].token, LexemesIn(segs, k + 1));
  }

  lemma ReadEnd(segs: seq<Segment>)
    ensures Reads(segs, |segs|, |TextOf(segs)|)
  {
    hide TextOf;
  }

  lemma BlankInPlace(t: string, p: nat)
    requires p < |t| && (t[p] == ' ' || t[p] == '\n')
    ensures ScanAt(t, p) == Skipped(p + 1) && t[p] != '/'
  {
  }

  /** A comment in a layout goes up to a newline or the end. */
  lemma CommentStops(segs: seq<Segment>, k: nat)
    requires Laid(segs) && k < |segs| && segs[k].Comment?
    ensures
      var t, q := TextOf(segs), |TextOf(segs[..k + 1])|;
      q < |t| ==> t[q] == '\n'
  {
    hide TextOf, IsComment;
    if k + 1 == |segs| {
      assert segs[..k + 1] == segs;
    } else {
      SegmentBegins(segs, k + 1);
      assert Fits(segs, k + 1);
    }
  }

  /** A segment that does not run together with the next ones reads as it should. */
  lemma SegmentReads(segs: seq<Segment>, k: nat)
    requires Laid(segs) && k < |segs| && !MergesAt(segs, k)
    ensures Reads(segs, k, |TextOf(segs[..k])|) <==> Reads(segs, k + 1, |TextOf(segs[..k + 1])|)
  {
    hide TextOf, Laid, Reads, ScanAt, IsComment, LexemeRight, MergesAt;
    var t, p, q := TextOf(segs), |TextOf(segs[..k])|, |TextOf(segs[..k + 1])|;
    SegmentBegins(segs, k);
    Placed(segs, k);
    if segs[k].Blank? {
      BlankInPlace(t, p);
      ReadBlank(segs, k, p, q);
    } else if segs[k].Comment? {
      CommentStops(segs, k);
      CommentInPlace(segs[k].text, t, p);
      ReadComment(segs, k, p, q);
    } else {
      LexemeReads(segs, k);
      ReadLexeme(segs, k, p, q);
    }
  }

  lemma SingleLexeme(token: Token)
    requires LexemeRight(token)
    ensures token.kind == Equal ==> token.lexeme == "="
    ensures token.kind == Greater ==> token.lexeme == ">"
    ensures token.kind == Dot ==> token.lexeme == "."
  {
    hide IsKeyword, NumberEnd, WordEnd, Find;
  }

  lemma ArrowScanned(t: string, p: nat)
    requires p + 1 < |t| && t[p] == '=' && t[p + 1] == '>'
    ensures ScanAt(t, p) == Found(FatArrow, p + 2)
  {
  }

  lemma WholeDigits(token: Token)
    requires LexemeRight(token) && Whole(token)
    ensures IsDigit(token.lexeme[0]) && DigitsEnd(token.lexeme, 1) == |token.lexeme|
  {
    hide IsDigit;
    NumberLexeme(token);
  }

  /** Digits, a dot and a digit are one number. */
  lemma FractionScanned(token: Token, t: string, p: nat)
    requires LexemeRight(token) && Whole(token)
    requires p + |token.lexeme| + 1 < |t| && t[p..p + |token.lexeme|] == token.lexeme
    requires t[p + |token.lexeme|] == '.' && IsDigit(t[p + |token.lexeme| + 1])
    ensures ScanAt(t, p).Found? && ScanAt(t, p).end > p + |token.lexeme|
  {
    hide IsDigit, DigitsEnd;
    var s, n := token.lexeme, |token.lexeme|;
    WholeDigits(token);
    assert s[0..0 + n] == s;
    SameAt(s, 0, t, p, n, 0);
    SamePart(s, 0, t, p, n, 1, n - 1);
    DotNoDigit();
    DigitsLocal(s, 1, t, p + 1, n - 1);
    NumberScanned(t, p);
  }

  /** A first token of another kind or length. */
  lemma FirstDiffers(segs: seq<Segment>, k: nat, p: nat, kind: TokenType, q: nat)
    requires k < |segs| && segs[k].Lexeme? && p < |TextOf(segs)| && ScanAt(TextOf(segs), p) == Found(kind, q)
    requires kind != segs[k].token.kind || q > p + |segs[k].token.lexeme|
    ensures !Reads(segs, k, p)
  {
    hide TextOf, ScanAt, LexemesIn, CommentsIn, TokensFrom, CommentsFrom, Clean, TrimmedAll, Trimmed, JointsIn, Behind;
    var t := TextOf(segs);
    ItemsFirst(segs, k);
    AfterFound(t, p, kind, q);
    DifferentFirst(TokensFrom(t, p), LexemesIn(segs, k));
  }

  lemma ArrowMisreads(segs: seq<Segment>, k: nat)
    requires Laid(segs) && k + 1 < |segs| && segs[k].Lexeme? && segs[k + 1].Lexeme?
    requires Arrow(segs[k].token, segs[k + 1].token)
    ensures !Reads(segs, k, |TextOf(segs[..k])|)
  {
    hide TextOf, Laid, ScanAt, LexemeRight, Reads;
    SegmentBegins(segs, k);
    SegmentBegins(segs, k + 1);
    SingleLexeme(segs[k].token);
    SingleLexeme(segs[k + 1].token);
    ArrowScanned(TextOf(segs), |TextOf(segs[..k])|);
    FirstDiffers(segs, k, |TextOf(segs[..k])|, FatArrow, |TextOf(segs[..k])| + 2);
  }

  lemma FractionMisreads(segs: seq<Segment>, k: nat)
    requires Laid(segs) && k + 2 < |segs| && segs[k].Lexeme? && segs[k + 1].Lexeme? && segs[k + 2].Lexeme?
    requires Whole(segs[k].token) && segs[k + 1].token.kind == Dot && segs[k + 2].token.kind == Number
    ensures !Reads(segs, k, |TextOf(segs[..k])|)
  {
    hide TextOf, Laid, ScanAt, LexemeRight, Reads, Whole, IsDigit;
    var t, p := TextOf(segs), |TextOf(segs[..k])|;
    SegmentBegins(segs, k);
    SegmentBegins(segs, k + 1);
    SegmentBegins(segs, k + 2);
    Placed(segs, k);
    SingleLexeme(segs[k + 1].token);
    NumberLexeme(segs[k + 2].token);
    FractionScanned(segs[k].token, t, p);
    FirstDiffers(segs, k, p, ScanAt(t, p).kind, ScanAt(t, p).end);
  }

  /** Lexemes that run together do not read as they should. */
  lemma MergedMisreads(segs: seq<Segment>, k: nat)
    requires Laid(segs) && k < |segs| && MergesAt(segs, k)
    ensures !Reads(segs, k, |TextOf(segs[..k])|)
  {
    hide TextOf, Laid, Reads, Arrow, Whole;
    if Arrow(segs[k].token, segs[k + 1].token) {
      ArrowMisreads(segs, k);
    } else {
      FractionMisreads(segs, k);
    }
  }

  lemma DifferentFirst(a: seq<Token>, b: seq<Token>)
    requires a != [] && b != [] && (a[0].kind != b[0].kind || a[0].lexeme != b[0].lexeme)
    ensures !SameTokens(a, b)
  {
  }

  /** A layout reads back, with no errors, the same tokens, and the same comments up to spaces at their
      ends, exactly when no lexemes run together. */
  lemma {:induction false} LayoutReads(segs: seq<Segment>, k: nat)
    requires Laid(segs) && k <= |segs|
    ensures Reads(segs, k, |TextOf(segs[..k])|) <==> SmoothFrom(segs, k)
    decreases |segs| - k
  {
    hide TextOf, Laid, Reads, SmoothFrom, MergesAt;
    if k == |segs| {
      assert segs[..k] == segs;
      ReadEnd(segs);
      SmoothEnd(segs);
    } else {
      LayoutReads(segs, k + 1);
      SmoothStep(segs, k);
      if MergesAt(segs, k) {
        MergedMisreads(segs, k);
      } else {
        SegmentReads(segs, k);
      }
    }
  }

  lemma SmoothEnd(segs: seq<Segment>)
    ensures SmoothFrom(segs, |segs|)
  {
  }

  // --------------------------------------------------------------- growing a layout

  predicate Settled(segs: seq<Segment>) {
    segs != [] ==> !segs[|segs| - 1].Comment?
  }

  /** Anything may be written next. */
  predicate Free(segs: seq<Segment>) {
    segs != [] ==> segs[|segs| - 1].Blank?
  }

  predicate EndsWith(text: string, c: char) {
    text != "" && text[|text| - 1] == c
  }

  predicate LineStarts(text: string) {
    text == "" || EndsWith(text, '\n')
  }

  lemma LexemeEnd(token: Token)
    requires LexemeRight(token)
    ensures !EndsWith(token.lexeme, ' ') && !EndsWith(token.lexeme, '\n')
  {
    hide IsKeyword;
  }

  lemma LastText(segs: seq<Segment>)
    requires segs != []
    ensures TextOf(segs) == TextOf(segs[..|segs| - 1]) + SegmentText(segs[|segs| - 1])
  {
  }

  /** A layout that ends in a blank character ends in a blank, unless a comment is still open. */
  lemma EndsBlank(segs: seq<Segment>, c: char)
    requires Laid(segs) && (c == ' ' || c == '\n') && EndsWith(TextOf(segs), c) && (c == ' ' ==> Settled(segs))
    ensures segs != [] && segs[|segs| - 1] == Blank(c)
  {
    hide TextOf, LexemeRight;
    if segs == [] {
      NoSegments();
    } else {
      LaidLess(segs);
      LastText(segs);
      var last := segs[|segs| - 1];
      if last.Lexeme? {
        LexemeFilled(last.token);
        LexemeEnd(last.token);
      }
    }
  }

  lemma NoSegments()
    ensures TextOf([]) == ""
  {
  }

  lemma LexemeFilled(token: Token)
    requires LexemeRight(token)
    ensures token.lexeme != ""
  {
  }

  lemma NoText(segs: seq<Segment>)
    requires Laid(segs) && TextOf(segs) == ""
    ensures segs == []
  {
    hide TextOf, LexemeRight;
    if segs != [] {
      LaidLess(segs);
      LastText(segs);
      if segs[|segs| - 1].Lexeme? {
        LexemeFilled(segs[|segs| - 1].token);
      }
    }
  }

  lemma FreeAtLineStart(segs: seq<Segment>)
    requires Laid(segs) && LineStarts(TextOf(segs))
    ensures Free(segs) && Settled(segs)
  {
    hide TextOf, Laid;
    if TextOf(segs) == "" {
      NoText(segs);
    } else {
      EndsBlank(segs, '\n');
    }
  }

  /** The layout without the space at its end, which may belong to a comment. */
  function Shorter(segs: seq<Segment>): seq<Segment>
    requires segs != []
  {
    var less, last := segs[..|segs| - 1], segs[|segs| - 1];
    if last.Comment? && last.text != "" then less + [Comment(last.text[..|last.text| - 1])] else less
  }

  /** What a layout holds: its tokens, its comments without the spaces at their ends, and of each token
      whether it stands directly behind another. */
  function Items(segs: seq<Segment>): Held {
    Held(LexemesIn(segs, 0), CommentsIn(segs, 0), JointsIn(segs, 0))
  }

  datatype Held = Held(tokens: seq<Token>, comments: seq<string>, joints: seq<bool>)

  const NOTHING := Held([], [], [])

  function With(items: Held, seg: Segment, behind: bool): Held {
    match seg
    case Lexeme(token) => items.(tokens := items.tokens + [token], joints := items.joints + [behind])
    case Comment(text) => items.(comments := items.comments + [Trimmed(text)])
    case Blank(_) => items
  }

  lemma ItemsAdded(segs: seq<Segment>, seg: Segment)
    ensures Items(segs + [seg]) == With(Items(segs), seg, Behind(segs))
  {
    hide LexemesIn, CommentsIn, JointsIn, Behind;
    ItemsMore(segs, seg, 0);
    var items := Items(segs);
    assert items.tokens + [] == items.tokens && items.comments + [] == items.comments && items.joints + [] == items.joints;
  }

  lemma CommentShorter(text: string)
    requires IsComment(text) && EndsWith(text, ' ')
    ensures IsComment(text[..|text| - 1]) && Trimmed(text[..|text| - 1]) == Trimmed(text)
  {
  }

  lemma BlankDropped(segs: seq<Segment>, c: char)
    requires segs != [] && segs[|segs| - 1] == Blank(c) && Laid(segs)
    ensures
      var less := segs[..|segs| - 1];
      Laid(less) && Items(less) == Items(segs) && TextOf(less) == TextOf(segs)[..|TextOf(segs)| - 1]
      && TextOf(segs) != "" && (c == ' ' ==> Settled(less))
  {
    hide TextOf, Laid, Items, IsComment, LexemeRight;
    var less := segs[..|segs| - 1];
    assert segs == less + [Blank(c)];
    LaidLess(segs);
    TextMore(less, Blank(c));
    ItemsAdded(less, Blank(c));
  }

  lemma CommentShortened(segs: seq<Segment>)
    requires segs != [] && segs[|segs| - 1].Comment? && EndsWith(TextOf(segs), ' ') && Laid(segs)
    ensures Laid(Shorter(segs)) && Items(Shorter(segs)) == Items(segs)
    ensures TextOf(Shorter(segs)) == TextOf(segs)[..|TextOf(segs)| - 1]
  {
    hide TextOf, Laid, Items, IsComment, LexemeRight, Trimmed;
    var less, text := segs[..|segs| - 1], segs[|segs| - 1].text;
    assert segs == less + [Comment(text)];
    LaidLess(segs);
    LastText(segs);
    CommentFilled(text);
    CommentShorter(text);
    var short := Comment(text[..|text| - 1]);
    LaidMore(less, short);
    TextMore(less, short);
    ItemsAdded(less, Comment(text));
    ItemsAdded(less, short);
  }

  lemma CommentFilled(text: string)
    requires IsComment(text)
    ensures text != ""
  {
  }

  lemma ShorterLaid(segs: seq<Segment>)
    requires Laid(segs) && EndsWith(TextOf(segs), ' ')
    ensures segs != [] && Laid(Shorter(segs)) && Items(Shorter(segs)) == Items(segs)
    ensures TextOf(Shorter(segs)) == TextOf(segs)[..|TextOf(segs)| - 1] && (Settled(segs) ==> Settled(Shorter(segs)))
  {
    hide TextOf, Laid, Items;
    if Settled(segs) {
      EndsBlank(segs, ' ');
      BlankDropped(segs, ' ');
    } else {
      CommentShortened(segs);
    }
  }

  lemma Added(segs: seq<Segment>, seg: Segment)
    requires Laid(segs) && SegmentRight(seg) && (segs != [] ==> Adjacent(segs[|segs| - 1], seg))
    ensures Laid(segs + [seg]) && TextOf(segs + [seg]) == TextOf(segs) + SegmentText(seg)
    ensures Items(segs + [seg]) == With(Items(segs), seg, Behind(segs))
  {
    hide *;
    LaidMore(segs, seg);
    TextMore(segs, seg);
    ItemsAdded(segs, seg);
  }

  function Blanks(n: nat): seq<Segment> {
    if n == 0 then [] else Blanks(n - 1) + [Blank(' ')]
  }

  function Spaces(n: nat): string {
    if n == 0 then "" else Spaces(n - 1) + [' ']
  }

  /** Indenting a free layout. */
  lemma {:induction false} Indented(segs: seq<Segment>, n: nat)
    requires Laid(segs) && Free(segs)
    ensures
      var more := segs + Blanks(n);
      Laid(more) && Free(more) && Items(more) == Items(segs) && TextOf(more) == TextOf(segs) + Spaces(n)
  {
    hide Laid, TextOf, Items;
    if n == 0 {
      assert segs + Blanks(0) == segs;
    } else {
      Indented(segs, n - 1);
      var less := segs + Blanks(n - 1);
      assert segs + Blanks(n) == less + [Blank(' ')];
      Added(less, Blank(' '));
    }
  }
}
