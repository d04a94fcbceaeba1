/** Editor positions by the standards: a text is the UTF-8 encoding of a string of scalar values, and a
    character offset counts the 16-bit units of the UTF-16 encoding (section 2.1 of RFC 2781) of what
    stands before it on its line.
 */
module Utf16Positions {
  import opened Wrappers
  import opened LspPositions

  type Unit = u: int | 0 <= u < 0x1_0000

  /** One unit, or a surrogate pair for what lies above the first plane. */
  function Encode16(c: nat): (units: seq<Unit>)
    requires ScalarValue(c)
  {
    if c < 0x10000 then [c]
    else
      var rest := c - 0x10000;
      [0xD800 + rest / 1024, 0xDC00 + rest % 1024]
  }

  /** The encoding is the standard's: a pair is a high and a low surrogate that give the value back,
      and a single unit is no surrogate. */
  lemma EncodesValue(c: nat)
    requires ScalarValue(c)
    ensures
      var units := Encode16(c);
      || (|units| == 1 && units[0] == c && !(0xD800 <= c <= 0xDFFF))
      || (|units| == 2 && 0xD800 <= units[0] < 0xDC00 <= units[1] < 0xE000
          && c == 0x10000 + (units[0] as int - 0xD800) * 1024 + (units[1] as int - 0xDC00))
  {
  }

  predicate Scalars(cs: seq<nat>) {
    forall k :: 0 <= k < |cs| ==> ScalarValue(cs[k])
  }

  function Utf8(cs: seq<nat>): seq<Byte>
    requires Scalars(cs)
  {
    if cs == [] then [] else Utf8(cs[..|cs| - 1]) + AppendCodePoint(cs[|cs| - 1])
  }

  function Utf16(cs: seq<nat>): seq<Unit>
    requires Scalars(cs)
  {
    if cs == [] then [] else Utf16(cs[..|cs| - 1]) + Encode16(cs[|cs| - 1])
  }

  /** Before `rest` is the start of the text or a newline, and there is none in it. */
  predicate OnLastLine(before: seq<nat>, rest: seq<nat>) {
    (before == [] || before[|before| - 1] == 10) && forall k :: 0 <= k < |rest| ==> rest[k] != 10
  }

  /** The position reached, counted one scalar value at a time. */
  function Reached(cs: seq<nat>): Position
    requires Scalars(cs)
  {
    if cs == [] then ORIGIN
    else
      var p := Reached(cs[..|cs| - 1]);
      if cs[|cs| - 1] == 10 then Position(p.line + 1, 0)
      else Position(p.line, p.character + |Encode16(cs[|cs| - 1])|)
  }

  lemma Utf8Last(cs: seq<nat>, c: nat)
    requires Scalars(cs) && ScalarValue(c)
    ensures Scalars(cs + [c]) && Utf8(cs + [c]) == Utf8(cs) + AppendCodePoint(c)
  {
    assert (cs + [c])[..|cs|] == cs;
  }

  lemma {:induction false} Utf8Split(cs: seq<nat>, ds: seq<nat>)
    requires Scalars(cs) && Scalars(ds)
    ensures Scalars(cs + ds) && Utf8(cs + ds) == Utf8(cs) + Utf8(ds)
    decreases |ds|
  {
    hide AppendCodePoint, ScalarValue;
    if ds == [] {
      assert cs + ds == cs;
    } else {
      var front, d := ds[..|ds| - 1], ds[|ds| - 1];
      assert cs + ds == (cs + front) + [d] && ds == front + [d];
      Utf8Split(cs, front);
      Utf8Last(cs + front, d);
    }
  }

  /** One character further: its bytes are decoded to it, and its units are counted. */
  lemma StepDecoded(text: seq<Byte>, o: nat, c: nat, p: Position)
    requires ScalarValue(c) && o + |AppendCodePoint(c)| <= |text| && text[o..o + |AppendCodePoint(c)|] == AppendCodePoint(c)
    ensures |AppendCodePoint(c)| > 0 && WidthAt(text, o) == |AppendCodePoint(c)|
    ensures Next(text, o, p) ==
            if c == 10 then Position(p.line + 1, 0) else Position(p.line, p.character + |Encode16(c)|)
  {
    hide DecodeUtf8;
    DecodeComplete(text, o, |text|, c);
    assert text[o] == text[o..o + |AppendCodePoint(c)|][0];
  }

  lemma {:induction false} ReachedIsBoundary(cs: seq<nat>, after: seq<nat>)
    requires Scalars(cs) && Scalars(after)
    ensures Scalars(cs + after) && Boundary(Utf8(cs + after), |Utf8(cs)|, Reached(cs))
    decreases |cs|
  {
    hide Boundary, AppendCodePoint, Encode16, ScalarValue, WidthAt, Next;
    if cs == [] {
      StartsAtOrigin(Utf8(cs + after));
    } else {
      var front, c := cs[..|cs| - 1], cs[|cs| - 1];
      assert cs + after == front + ([c] + after) && cs == front + [c];
      ReachedIsBoundary(front, [c] + after);
      Utf8Split(cs, after);
      OneFurther(Utf8(front), c, Utf8(after), Reached(front));
    }
  }

  lemma OneFurther(head: seq<Byte>, c: nat, tail: seq<Byte>, p: Position)
    requires ScalarValue(c) && Boundary(head + AppendCodePoint(c) + tail, |head|, p)
    ensures
      Boundary(
        head + AppendCodePoint(c) + tail, |head + AppendCodePoint(c)|,
        if c == 10 then Position(p.line + 1, 0) else Position(p.line, p.character + |Encode16(c)|))
  {
    hide Boundary, AppendCodePoint, Encode16, WidthAt, Next;
    var text := head + AppendCodePoint(c) + tail;
    assert text[|head|..|head| + |AppendCodePoint(c)|] == AppendCodePoint(c);
    StepDecoded(text, |head|, c, p);
    NextCharacter(text, |head|, p);
  }

  lemma {:induction false} ReachedExactly(before: seq<nat>, rest: seq<nat>)
    requires Scalars(before) && Scalars(rest) && OnLastLine(before, rest)
    ensures Scalars(before + rest)
    ensures Reached(before + rest) == Position(multiset(before)[10], |Utf16(rest)|)
    decreases |rest|
  {
    if rest == [] {
      assert before + rest == before;
      LinesReached(before);
    } else {
      var front := rest[..|rest| - 1];
      assert (before + rest)[..|before + rest| - 1] == before + front;
      ReachedExactly(before, front);
    }
  }

  lemma {:induction false} LinesReached(cs: seq<nat>)
    requires Scalars(cs)
    ensures Reached(cs).line == multiset(cs)[10]
    decreases |cs|
  {
    if cs != [] {
      var front := cs[..|cs| - 1];
      assert cs == front + [cs[|cs| - 1]];
      LinesReached(front);
    }
  }

  /** In a text of scalar values, the position after `before + rest`, `rest` being what has been passed
      of the line, is the number of newlines and the length of the UTF-16 encoding of `rest`. */
  lemma PositionsExactly(before: seq<nat>, rest: seq<nat>, after: seq<nat>)
    requires Scalars(before) && Scalars(rest) && Scalars(after) && OnLastLine(before, rest)
    ensures Scalars(before + rest) && Scalars(before + rest + after)
    ensures Boundary(
              Utf8(before + rest + after), |Utf8(before + rest)|,
              Position(multiset(before)[10], |Utf16(rest)|))
  {
    hide Boundary, AppendCodePoint, Encode16, ScalarValue;
    ReachedExactly(before, rest);
    ReachedIsBoundary(before + rest, after);
  }

  /** Both services agree with the standards on such a text, wherever a character starts. */
  method ServicesExact(before: seq<nat>, rest: seq<nat>, after: seq<nat>) returns (position: Position, byte: Option<nat>)
    requires Scalars(before) && Scalars(rest) && Scalars(after) && OnLastLine(before, rest)
    ensures position == Position(multiset(before)[10], |Utf16(rest)|)
    ensures Scalars(before + rest) && byte == Some(|Utf8(before + rest)|)
  {
    hide Boundary, AppendCodePoint, Encode16, ScalarValue;
    PositionsExactly(before, rest, after);
    var text := Utf8(before + rest + after);
    position := LspPositionAt(text, |Utf8(before + rest)|);
    byte := ByteRoundTrip(text, |Utf8(before + rest)|, position);
  }
}
