/** UTF-8 decoding and the maps between byte offsets and UTF-16 editor positions.

    Bytes are numbers below 256; masks and shifts are written as remainders, quotients and products.
 */
module LspPositions {
  import opened Wrappers

  type Byte = b: int | 0 <= b < 256

  const NEWLINE: Byte := 10

  // ----------------------------------------------------------------------- UTF-8

  /** The code points that have an encoding: everything but the surrogates. */
  predicate ScalarValue(c: nat) {
    c < 0xD800 || 0xE000 <= c <= 0x10FFFF
  }

  predicate Continuation(text: seq<Byte>, i: nat, limit: nat)
    requires limit <= |text|
  {
    i < limit && 0x80 <= text[i] < 0xC0
  }

  function AppendCodePoint(c: nat): (bytes: seq<Byte>)
    requires c <= 0x10FFFF
  {
    if c <= 0x7F then [c]
    else if c <= 0x7FF then [0xC0 + c / 64, 0x80 + c % 64]
    else if c <= 0xFFFF then [0xE0 + c / 4096, 0x80 + c / 64 % 64, 0x80 + c % 64]
    else [0xF0 + c / 262144, 0x80 + c / 4096 % 64, 0x80 + c / 64 % 64, 0x80 + c % 64]
  }

  function Pack2(a: nat, b: nat): nat {
    a % 32 * 64 + b % 64
  }

  function Pack3(a: nat, b: nat, c: nat): nat {
    a % 16 * 4096 + b % 64 * 64 + c % 64
  }

  function Pack4(a: nat, b: nat, c: nat, d: nat): nat {
    a % 8 * 262144 + b % 64 * 4096 + c % 64 * 64 + d % 64
  }

  datatype Decoded = Decoded(codePoint: Option<nat>, width: nat)

  /** The code point at an offset, or none and a width of one for a byte that starts no encoding. */
  function DecodeUtf8(text: seq<Byte>, o: nat, limit: nat): (d: Decoded)
    requires limit <= |text|
    ensures o < limit ==> 1 <= d.width && o + d.width <= limit
    ensures o >= limit ==> d == Decoded(None, 0)
    ensures d.codePoint.None? ==> d.width <= 1
  {
    if o >= limit then Decoded(None, 0)
    else if text[o] < 0x80 then Decoded(Some(text[o]), 1)
    else if 0xC2 <= text[o] <= 0xDF && Continuation(text, o + 1, limit) then
      Decoded(Some(Pack2(text[o], text[o + 1])), 2)
    else if IsThree(text, o, limit) then Decoded(Some(Pack3(text[o], text[o + 1], text[o + 2])), 3)
    else if IsFour(text, o, limit) then Decoded(Some(Pack4(text[o], text[o + 1], text[o + 2], text[o + 3])), 4)
    else Decoded(None, 1)
  }

  predicate IsThree(text: seq<Byte>, o: nat, limit: nat)
    requires o < limit <= |text|
  {
    && 0xE0 <= text[o] <= 0xEF && Continuation(text, o + 1, limit) && Continuation(text, o + 2, limit)
    && var c := Pack3(text[o], text[o + 1], text[o + 2]);
       c >= 0x800 && !(0xD800 <= c <= 0xDFFF)
  }

  predicate IsFour(text: seq<Byte>, o: nat, limit: nat)
    requires o < limit <= |text|
  {
    && 0xF0 <= text[o] <= 0xF4 && Continuation(text, o + 1, limit) && Continuation(text, o + 2, limit)
    && Continuation(text, o + 3, limit)
    && 0x10000 <= Pack4(text[o], text[o + 1], text[o + 2], text[o + 3]) <= 0x10FFFF
  }

  // The packings and AppendCodePoint undo each other.

  lemma Tail(b: nat)
    requires 0x80 <= b < 0xC0
    ensures b % 64 == b - 0x80
  {
  }

  lemma Split64(q: nat, r: nat)
    requires r < 64
    ensures (q * 64 + r) / 64 == q && (q * 64 + r) % 64 == r
  {
  }

  lemma Unpack2(a: nat, b: nat)
    requires 0xC2 <= a <= 0xDF && 0x80 <= b < 0xC0
    ensures 0x80 <= Pack2(a, b) <= 0x7FF && AppendCodePoint(Pack2(a, b)) == [a, b]
  {
    Tail(b);
    assert a % 32 == a - 0xC0;
  }

  lemma Unpack3(a: nat, b: nat, c: nat)
    requires 0xE0 <= a <= 0xEF && 0x80 <= b < 0xC0 && 0x80 <= c < 0xC0 && Pack3(a, b, c) >= 0x800
    ensures Pack3(a, b, c) <= 0xFFFF && AppendCodePoint(Pack3(a, b, c)) == [a, b, c]
  {
    Tail(b);
    Tail(c);
    assert a % 16 == a - 0xE0;
    var q := (a - 0xE0) * 64 + (b - 0x80);
    assert Pack3(a, b, c) == q * 64 + (c - 0x80);
    Split64(q, c - 0x80);
    Split64(a - 0xE0, b - 0x80);
    Quotient4096(Pack3(a, b, c));
  }

  lemma Quotient4096(p: nat)
    ensures p / 4096 == p / 64 / 64
  {
  }

  lemma Quotient262144(p: nat)
    ensures p / 262144 == p / 4096 / 64
  {
  }

  lemma Unpack4(a: nat, b: nat, c: nat, d: nat)
    requires 0xF0 <= a <= 0xF4 && 0x80 <= b < 0xC0 && 0x80 <= c < 0xC0 && 0x80 <= d < 0xC0
    requires 0x10000 <= Pack4(a, b, c, d) <= 0x10FFFF
    ensures AppendCodePoint(Pack4(a, b, c, d)) == [a, b, c, d]
  {
    Tail(b);
    Tail(c);
    Tail(d);
    assert a % 8 == a - 0xF0;
    var p := Pack4(a, b, c, d);
    var q := (a - 0xF0) * 64 + (b - 0x80);
    var r := q * 64 + (c - 0x80);
    assert p == r * 64 + (d - 0x80);
    Split64(r, d - 0x80);
    Split64(q, c - 0x80);
    Split64(a - 0xF0, b - 0x80);
    Quotient4096(p);
    Quotient262144(p);
  }

  lemma Repack2(c: nat)
    requires 0x80 <= c <= 0x7FF
    ensures 0xC2 <= 0xC0 + c / 64 <= 0xDF && Pack2(0xC0 + c / 64, 0x80 + c % 64) == c
  {
    Tail(0x80 + c % 64);
    assert (0xC0 + c / 64) % 32 == c / 64;
  }

  lemma Repack3(c: nat)
    requires 0x800 <= c <= 0xFFFF
    ensures 0xE0 <= 0xE0 + c / 4096 <= 0xEF && Pack3(0xE0 + c / 4096, 0x80 + c / 64 % 64, 0x80 + c % 64) == c
  {
    Tail(0x80 + c / 64 % 64);
    Tail(0x80 + c % 64);
    Digits64(c);
    assert (0xE0 + c / 4096) % 16 == c / 4096;
  }

  lemma Repack4(c: nat)
    requires 0x10000 <= c <= 0x10FFFF
    ensures 0xF0 <= 0xF0 + c / 262144 <= 0xF4
    ensures Pack4(0xF0 + c / 262144, 0x80 + c / 4096 % 64, 0x80 + c / 64 % 64, 0x80 + c % 64) == c
  {
    Tail(0x80 + c / 4096 % 64);
    Tail(0x80 + c / 64 % 64);
    Tail(0x80 + c % 64);
    Digits64(c);
    assert (0xF0 + c / 262144) % 8 == c / 262144;
  }

  lemma Digits64(c: nat)
    ensures c == c / 64 * 64 + c % 64
    ensures c / 64 == c / 4096 * 64 + c / 64 % 64
    ensures c / 4096 == c / 262144 * 64 + c / 4096 % 64
  {
  }

  /** What is decoded is the encoding of a scalar value. */
  lemma DecodeSound(text: seq<Byte>, o: nat, limit: nat)
    requires o < limit <= |text|
    ensures
      var d := DecodeUtf8(text, o, limit);
      d.codePoint.Some? ==> ScalarValue(d.codePoint.value) && text[o..o + d.width] == AppendCodePoint(d.codePoint.value)
  {
    hide Pack2, Pack3, Pack4, AppendCodePoint;
    var d := DecodeUtf8(text, o, limit);
    if d.width == 4 {
      Unpack4(text[o], text[o + 1], text[o + 2], text[o + 3]);
    } else if d.width == 3 {
      Unpack3(text[o], text[o + 1], text[o + 2]);
    } else if d.width == 2 {
      Unpack2(text[o], text[o + 1]);
    } else if d.codePoint.Some? {
      Single(text[o]);
    }
  }

  lemma Single(c: nat)
    requires c < 0x80
    ensures AppendCodePoint(c) == [c]
  {
  }

  /** Every encoding of a scalar value is decoded, whatever follows it. */
  lemma DecodeComplete(text: seq<Byte>, o: nat, limit: nat, c: nat)
    requires ScalarValue(c) && o + |AppendCodePoint(c)| <= limit <= |text|
    requires text[o..o + |AppendCodePoint(c)|] == AppendCodePoint(c)
    ensures DecodeUtf8(text, o, limit) == Decoded(Some(c), |AppendCodePoint(c)|)
  {
    hide Pack2, Pack3, Pack4;
    var bytes := AppendCodePoint(c);
    forall k | 0 <= k < |bytes| ensures text[o + k] == bytes[k] {
      assert text[o..o + |bytes|][k] == bytes[k];
    }
    if 0x80 <= c <= 0x7FF {
      Repack2(c);
    } else if 0x800 <= c <= 0xFFFF {
      Repack3(c);
    } else if 0x10000 <= c {
      Repack4(c);
    }
  }

  /** The surrogates that appendCodePoint also encodes, from escapes, are never decoded back. */
  lemma SurrogateRejected(text: seq<Byte>, o: nat, limit: nat, c: nat)
    requires 0xD800 <= c <= 0xDFFF && o + 3 <= limit <= |text| && text[o..o + 3] == AppendCodePoint(c)
    ensures DecodeUtf8(text, o, limit) == Decoded(None, 1)
  {
    hide Pack2, Pack3, Pack4;
    forall k | 0 <= k < 3 ensures text[o + k] == AppendCodePoint(c)[k] {
      assert text[o..o + 3][k] == AppendCodePoint(c)[k];
    }
    Repack3(c);
  }

  // ------------------------------------------------------------------- positions

  datatype Position = Position(line: nat, character: nat)

  const ORIGIN := Position(0, 0)

  function WidthAt(text: seq<Byte>, o: nat): (w: nat)
    requires o < |text|
    ensures 1 <= w && o + w <= |text|
  {
    DecodeUtf8(text, o, |text|).width
  }

  function UnitsOf(d: Decoded): nat {
    if d.codePoint.Some? && d.codePoint.value > 0xFFFF then 2 else 1
  }

  /** The UTF-16 units of the character at an offset. */
  function UnitsAt(text: seq<Byte>, o: nat): nat
    requires o < |text|
  {
    UnitsOf(DecodeUtf8(text, o, |text|))
  }

  /** The position after the character at an offset. */
  function Next(text: seq<Byte>, o: nat, p: Position): Position
    requires o < |text|
  {
    if text[o] == NEWLINE then Position(p.line + 1, 0) else Position(p.line, p.character + UnitsAt(text, o))
  }

  /** The reference map: the position of `b` when decoding from `o`, at position `p`, has a boundary at `b`. */
  function PositionFrom(text: seq<Byte>, o: nat, p: Position, b: nat): Option<Position>
    requires o <= |text|
    decreases |text| - o
  {
    if o == b then Some(p)
    else if o > b || o == |text| then None
    else PositionFrom(text, o + WidthAt(text, o), Next(text, o, p), b)
  }

  /** `b` is a decode boundary of the text and its position is `q`. */
  predicate Boundary(text: seq<Byte>, b: nat, q: Position) {
    PositionFrom(text, 0, ORIGIN, b) == Some(q)
  }

  lemma NewlineWidth(text: seq<Byte>, o: nat)
    requires o < |text| && text[o] == NEWLINE
    ensures WidthAt(text, o) == 1
  {
  }

  /** The bytes of a character after its first are continuation bytes. */
  lemma InsideCharacter(text: seq<Byte>, o: nat, i: nat)
    requires o < |text| && o < i < o + WidthAt(text, o)
    ensures text[i] != NEWLINE
  {
    hide Pack2, Pack3, Pack4;
  }

  /** A limit that does not cut the character off does not change how it is decoded. */
  lemma LimitStable(text: seq<Byte>, o: nat, limit: nat)
    requires o < limit <= |text| && o + WidthAt(text, o) <= limit
    ensures DecodeUtf8(text, o, limit) == DecodeUtf8(text, o, |text|)
  {
    hide Pack2, Pack3, Pack4;
  }

  lemma {:induction false} PositionTrans(text: seq<Byte>, o: nat, p: Position, m: nat, q: Position, b: nat)
    requires o <= |text| && m <= b && m <= |text| && PositionFrom(text, o, p, m) == Some(q)
    ensures PositionFrom(text, o, p, b) == PositionFrom(text, m, q, b)
    decreases |text| - o
  {
    hide WidthAt, Next;
    if o != m {
      PositionTrans(text, o + WidthAt(text, o), Next(text, o, p), m, q, b);
    }
  }

  lemma {:induction false} BoundaryInside(text: seq<Byte>, o: nat, p: Position, b: nat)
    requires o <= |text| && PositionFrom(text, o, p, b).Some?
    ensures o <= b <= |text|
    decreases |text| - o
  {
    hide WidthAt, Next;
    if o < b {
      BoundaryInside(text, o + WidthAt(text, o), Next(text, o, p), b);
    }
  }

  predicate Before(p: Position, q: Position) {
    p.line < q.line || (p.line == q.line && p.character <= q.character)
  }

  lemma {:induction false} NeverBack(text: seq<Byte>, o: nat, p: Position, b: nat)
    requires o <= |text| && PositionFrom(text, o, p, b).Some?
    ensures Before(p, PositionFrom(text, o, p, b).value)
    decreases |text| - o
  {
    hide WidthAt, UnitsAt;
    if o < b {
      BoundaryInside(text, o, p, b);
      NeverBack(text, o + WidthAt(text, o), Next(text, o, p), b);
    }
  }

  /** A later boundary lies at least one whole character further. */
  lemma LaterIsFurther(text: seq<Byte>, a: nat, p: Position, b: nat, q: Position)
    requires Boundary(text, a, p) && Boundary(text, b, q) && a < b
    ensures b <= |text| && Before(Next(text, a, p), q)
  {
    hide WidthAt, Next, Before;
    BoundaryInside(text, 0, ORIGIN, a);
    BoundaryInside(text, 0, ORIGIN, b);
    PositionTrans(text, 0, ORIGIN, a, p, b);
    NeverBack(text, a + WidthAt(text, a), Next(text, a, p), b);
  }

  // ------------------------------------------------------- from offsets to positions

  /** What the scan of `lspPositionAt` computes from `o` on. */
  function Scan(text: seq<Byte>, o: nat, limit: nat, p: Position): Position
    requires limit <= |text|
    decreases limit - o
  {
    if o >= limit then p
    else if text[o] == NEWLINE then Scan(text, o + 1, limit, Position(p.line + 1, 0))
    else
      var d := DecodeUtf8(text, o, limit);
      Scan(text, o + d.width, limit, Position(p.line, p.character + UnitsOf(d)))
  }

  lemma {:induction false} ScanExact(text: seq<Byte>, o: nat, p: Position, b: nat)
    requires o <= b <= |text| && PositionFrom(text, o, p, b).Some?
    ensures Some(Scan(text, o, b, p)) == PositionFrom(text, o, p, b)
    decreases |text| - o
  {
    hide DecodeUtf8;
    if o < b {
      BoundaryInside(text, o + WidthAt(text, o), Next(text, o, p), b);
      LimitStable(text, o, b);
      if text[o] == NEWLINE {
        NewlineWidth(text, o);
      }
      ScanExact(text, o + WidthAt(text, o), Next(text, o, p), b);
    }
  }

  /** The position of a byte offset; exact at every decode boundary, of valid UTF-8 or not. */
  method LspPositionAt(text: seq<Byte>, byte: nat) returns (position: Position)
    ensures position == Scan(text, 0, if byte < |text| then byte else |text|, ORIGIN)
    ensures forall q :: Boundary(text, byte, q) ==> position == q
    ensures byte > |text| ==> Boundary(text, |text|, position)
  {
    hide DecodeUtf8;
    var limit := if byte < |text| then byte else |text|;
    position := ORIGIN;
    var offset := 0;
    while offset < limit
      invariant offset <= limit
      invariant Scan(text, offset, limit, position) == Scan(text, 0, limit, ORIGIN)
    {
      if text[offset] == NEWLINE {
        position := Position(position.line + 1, 0);
        offset := offset + 1;
      } else {
        var d := DecodeUtf8(text, offset, limit);
        position := Position(position.line, position.character + UnitsOf(d));
        offset := offset + d.width;
      }
    }
    EndIsBoundary(text, 0, ORIGIN);
    if byte > |text| {
      ScanExact(text, 0, ORIGIN, limit);
    }
    forall q | Boundary(text, limit, q) ensures position == q {
      ScanExact(text, 0, ORIGIN, limit);
    }
    forall q | Boundary(text, byte, q) ensures position == q {
      BoundaryInside(text, 0, ORIGIN, byte);
    }
  }

  lemma {:induction false} EndIsBoundary(text: seq<Byte>, o: nat, p: Position)
    requires o <= |text|
    ensures PositionFrom(text, o, p, |text|).Some?
    decreases |text| - o
  {
    hide WidthAt, Next;
    if o < |text| {
      EndIsBoundary(text, o + WidthAt(text, o), Next(text, o, p));
    }
  }

  // ------------------------------------------------------- from positions to offsets

  /** `b` is the boundary at a position, or the first byte of the surrogate pair whose middle the position names. */
  predicate Covers(text: seq<Byte>, b: nat, line: nat, character: nat) {
    || Boundary(text, b, Position(line, character))
    || (&& b < |text| && text[b] != NEWLINE && UnitsAt(text, b) == 2
        && 1 <= character && Boundary(text, b, Position(line, character - 1)))
  }

  lemma CoversOnce(text: seq<Byte>, a: nat, b: nat, line: nat, character: nat)
    requires Covers(text, a, line, character) && Covers(text, b, line, character)
    ensures a == b
  {
    hide DecodeUtf8, PositionFrom;
    if a < b {
      CoversEarlier(text, a, b, line, character);
    } else if b < a {
      CoversEarlier(text, b, a, line, character);
    }
  }

  lemma CoversEarlier(text: seq<Byte>, a: nat, b: nat, line: nat, character: nat)
    requires Covers(text, a, line, character) && Covers(text, b, line, character)
    ensures a >= b
  {
    hide DecodeUtf8, PositionFrom;
    if a < b {
      var p := if Boundary(text, a, Position(line, character)) then Position(line, character) else Position(line, character - 1);
      var q := if Boundary(text, b, Position(line, character)) then Position(line, character) else Position(line, character - 1);
      LaterIsFurther(text, a, p, b, q);
    }
  }

  /** The next newline at or after an offset, or none. */
  method FindNewline(text: seq<Byte>, start: nat) returns (r: Option<nat>)
    requires start <= |text|
    ensures r.Some? ==> start <= r.value < |text| && text[r.value] == NEWLINE
    ensures forall i :: start <= i < (if r.Some? then r.value else |text|) ==> text[i] != NEWLINE
  {
    var i := start;
    while i < |text|
      invariant start <= i <= |text|
      invariant forall k :: start <= k < i ==> text[k] != NEWLINE
    {
      if text[i] == NEWLINE {
        return Some(i);
      }
      i := i + 1;
    }
    return None;
  }

  /** No newline in between: the walk stays on its line and has a boundary at the end of the stretch. */
  lemma {:induction false} SameLine(text: seq<Byte>, o: nat, p: Position, n: nat)
    requires o <= n <= |text| && (n == |text| || text[n] == NEWLINE)
    requires forall i :: o <= i < n ==> text[i] != NEWLINE
    ensures PositionFrom(text, o, p, n).Some? && PositionFrom(text, o, p, n).value.line == p.line
    decreases |text| - o
  {
    hide UnitsAt, DecodeUtf8;
    if o < n {
      WithinLine(text, o, n);
      SameLine(text, o + WidthAt(text, o), Next(text, o, p), n);
    }
  }

  lemma WithinLine(text: seq<Byte>, o: nat, n: nat)
    requires o < n <= |text| && (n == |text| || text[n] == NEWLINE)
    ensures o + WidthAt(text, o) <= n
  {
    hide DecodeUtf8;
    if n < |text| && n < o + WidthAt(text, o) {
      InsideCharacter(text, o, n);
    }
  }

  lemma NextLine(text: seq<Byte>, start: nat, line: nat, newline: nat)
    requires start <= newline < |text| && text[newline] == NEWLINE && Boundary(text, start, Position(line, 0))
    requires forall i :: start <= i < newline ==> text[i] != NEWLINE
    ensures Boundary(text, newline + 1, Position(line + 1, 0))
  {
    hide UnitsAt, DecodeUtf8;
    SameLine(text, start, Position(line, 0), newline);
    var q := PositionFrom(text, start, Position(line, 0), newline).value;
    PositionTrans(text, 0, ORIGIN, start, Position(line, 0), newline);
    NewlineWidth(text, newline);
    PositionTrans(text, 0, ORIGIN, newline, q, newline + 1);
    StepOnce(text, newline, q);
  }

  lemma StepOnce(text: seq<Byte>, o: nat, p: Position)
    requires o < |text|
    ensures PositionFrom(text, o, p, o + WidthAt(text, o)) == Some(Next(text, o, p))
  {
    hide WidthAt, Next;
  }

  lemma NextCharacter(text: seq<Byte>, o: nat, p: Position)
    requires o < |text| && Boundary(text, o, p)
    ensures Boundary(text, o + WidthAt(text, o), Next(text, o, p))
  {
    hide WidthAt, Next;
    PositionTrans(text, 0, ORIGIN, o, p, o + WidthAt(text, o));
    StepOnce(text, o, p);
  }

  /** The text ends before the line: nothing lies on it. */
  lemma NoSuchLine(text: seq<Byte>, start: nat, current: nat, line: nat, character: nat, b: nat)
    requires start <= |text| && current < line && Boundary(text, start, Position(current, 0))
    requires forall i :: start <= i < |text| ==> text[i] != NEWLINE
    ensures !Covers(text, b, line, character)
  {
    hide DecodeUtf8, UnitsAt, PositionFrom;
    SameLine(text, start, Position(current, 0), |text|);
    PositionTrans(text, 0, ORIGIN, start, Position(current, 0), |text|);
    var end := PositionFrom(text, start, Position(current, 0), |text|).value;
    forall q | Boundary(text, b, q) ensures q.line <= current {
      BoundaryInside(text, 0, ORIGIN, b);
      if b < |text| {
        LaterIsFurther(text, b, q, |text|, end);
      }
    }
  }

  /** The line ends before the character: nothing lies at the position. */
  lemma LineTooShort(text: seq<Byte>, limit: nat, line: nat, end: nat, character: nat, b: nat)
    requires limit <= |text| && (limit == |text| || text[limit] == NEWLINE) && end < character
    requires Boundary(text, limit, Position(line, end))
    ensures !Covers(text, b, line, character)
  {
    hide DecodeUtf8, UnitsAt, PositionFrom;
    forall q | Boundary(text, b, q) && q.line == line
      ensures b <= limit && (b < limit ==> text[b] != NEWLINE && q.character + UnitsAt(text, b) <= end)
      ensures b < |text| ==> 1 <= UnitsAt(text, b)
    {
      BoundaryInside(text, 0, ORIGIN, b);
      if b < |text| {
        DecodedAt(text, b);
      }
      if b < limit {
        LaterIsFurther(text, b, q, limit, Position(line, end));
      } else if limit < b {
        LaterIsFurther(text, limit, Position(line, end), b, q);
      }
    }
  }

  /** The byte at a position: the one that covers it, or none when there is no such line or character. */
  method SourceByteAtLspPosition(text: seq<Byte>, line: nat, character: nat) returns (r: Option<nat>)
    ensures r.Some? ==> r.value <= |text| && Covers(text, r.value, line, character)
    ensures r.None? ==> forall b :: !Covers(text, b, line, character)
  {
    hide DecodeUtf8, UnitsOf, PositionFrom, WidthAt;
    var currentLine: nat, lineStart: nat := 0, 0;
    StartsAtOrigin(text);
    while currentLine < line
      invariant currentLine <= line && lineStart <= |text| && Boundary(text, lineStart, Position(currentLine, 0))
      decreases line - currentLine
    {
      var newline := FindNewline(text, lineStart);
      if newline.None? {
        forall b ensures !Covers(text, b, line, character) {
          NoSuchLine(text, lineStart, currentLine, line, character, b);
        }
        return None;
      }
      NextLine(text, lineStart, currentLine, newline.value);
      lineStart, currentLine := newline.value + 1, currentLine + 1;
    }
    var lineEnd := FindNewline(text, lineStart);
    var limit := if lineEnd.Some? then lineEnd.value else |text|;
    var offset: nat, currentCharacter: nat := lineStart, 0;
    while offset < limit
      invariant lineStart <= offset <= limit && currentCharacter <= character
      invariant Boundary(text, offset, Position(line, currentCharacter))
      decreases limit - offset
    {
      if currentCharacter >= character {
        return Some(offset);
      }
      WithinLine(text, offset, limit);
      LimitStable(text, offset, limit);
      NextCharacter(text, offset, Position(line, currentCharacter));
      var d := DecodeUtf8(text, offset, limit);
      var units := UnitsOf(d);
      DecodedAt(text, offset);
      if currentCharacter + units > character {
        return Some(offset);
      }
      currentCharacter, offset := currentCharacter + units, offset + d.width;
    }
    if currentCharacter == character {
      return Some(offset);
    }
    forall b ensures !Covers(text, b, line, character) {
      LineTooShort(text, limit, line, currentCharacter, character, b);
    }
    return None;
  }

  lemma DecodedAt(text: seq<Byte>, o: nat)
    requires o < |text|
    ensures DecodeUtf8(text, o, |text|).width == WidthAt(text, o)
    ensures UnitsAt(text, o) == UnitsOf(DecodeUtf8(text, o, |text|)) <= 2
    ensures 1 <= UnitsAt(text, o)
  {
  }

  lemma StartsAtOrigin(text: seq<Byte>)
    ensures Boundary(text, 0, Position(0, 0))
  {
  }

  // ------------------------------------------------------------------ round trips

  /** Every decode boundary survives the way to a position and back. */
  method ByteRoundTrip(text: seq<Byte>, b: nat, ghost q: Position) returns (r: Option<nat>)
    requires Boundary(text, b, q)
    ensures r == Some(b)
  {
    hide Boundary, Covers;
    var position := LspPositionAt(text, b);
    r := SourceByteAtLspPosition(text, position.line, position.character);
    BoundaryCovers(text, b, position);
    if r.Some? {
      CoversOnce(text, b, r.value, position.line, position.character);
    }
  }

  lemma BoundaryCovers(text: seq<Byte>, b: nat, q: Position)
    requires Boundary(text, b, q)
    ensures Covers(text, b, q.line, q.character)
  {
    hide Boundary;
  }

  /** A position that names a byte survives the way back, except that the middle of a surrogate pair rounds down. */
  method PositionRoundTrip(text: seq<Byte>, line: nat, character: nat) returns (r: Option<nat>, position: Position)
    ensures r.Some? ==> position.line == line
    ensures r.Some? ==>
      || position.character == character
      || (r.value < |text| && UnitsAt(text, r.value) == 2 && position.character + 1 == character)
  {
    hide Boundary, UnitsAt;
    position := ORIGIN;
    r := SourceByteAtLspPosition(text, line, character);
    if r.Some? {
      position := LspPositionAt(text, r.value);
    }
  }
}
