/** Decimal numerals, and texts that can be split in only one way. */
module Decimals {

  function Digit(d: nat): char
    requires d < 10
  {
    "0123456789"[d]
  }

  predicate IsDigit(c: char) {
    '0' <= c <= '9'
  }

  function Decimal(n: nat): (text: string)
    ensures text != []
    decreases n
  {
    if n < 10 then [Digit(n)] else Decimal(n / 10) + [Digit(n % 10)]
  }

  lemma {:induction false} DecimalDigits(n: nat)
    ensures forall i :: 0 <= i < |Decimal(n)| ==> IsDigit(Decimal(n)[i])
    decreases n
  {
    if n >= 10 {
      DecimalDigits(n / 10);
    }
  }

  /** The number a text of digits stands for. */
  function ValueOf(text: string): nat
    requires forall i :: 0 <= i < |text| ==> IsDigit(text[i])
  {
    if text == [] then 0
    else
      assert IsDigit(text[|text| - 1]);
      10 * ValueOf(text[..|text| - 1]) + (text[|text| - 1] as int - '0' as int)
  }

  lemma {:induction false} DecimalValue(n: nat)
    ensures forall i :: 0 <= i < |Decimal(n)| ==> IsDigit(Decimal(n)[i])
    ensures ValueOf(Decimal(n)) == n
    decreases n
  {
    DecimalDigits(n);
    if n >= 10 {
      DecimalValue(n / 10);
      assert Decimal(n)[..|Decimal(n)| - 1] == Decimal(n / 10);
    } else {
      assert ValueOf([]) == 0;
    }
  }

  lemma DecimalInjective(a: nat, b: nat)
    requires Decimal(a) == Decimal(b)
    ensures a == b
  {
    DecimalValue(a);
    DecimalValue(b);
  }

  /** How many digits a text starts with. */
  function DigitRun(text: string): nat {
    if text != [] && IsDigit(text[0]) then 1 + DigitRun(text[1..]) else 0
  }

  lemma {:induction false} RunEnds(s: string, x: string)
    requires forall i :: 0 <= i < |s| ==> IsDigit(s[i])
    requires x == [] || !IsDigit(x[0])
    ensures DigitRun(s + x) == |s|
  {
    if s == [] {
      assert s + x == x;
    } else {
      RunEnds(s[1..], x);
      assert (s + x)[1..] == s[1..] + x;
    }
  }

  /** A number is read back from a text when no digit follows it. */
  lemma DecimalPrefix(a: nat, x: string, b: nat, y: string)
    requires Decimal(a) + x == Decimal(b) + y
    requires (x == [] || !IsDigit(x[0])) && (y == [] || !IsDigit(y[0]))
    ensures a == b && x == y
  {
    var s, t := Decimal(a), Decimal(b);
    DecimalDigits(a);
    DecimalDigits(b);
    RunEnds(s, x);
    RunEnds(t, y);
    assert s == (s + x)[..|s|] == t;
    assert x == (s + x)[|s|..] == y;
    DecimalInjective(a, b);
  }

  /** How many characters at the end of a text are not marks. */
  function TailRun(text: string, marks: set<char>): nat {
    if text != [] && text[|text| - 1] !in marks then 1 + TailRun(text[..|text| - 1], marks) else 0
  }

  predicate Unmarked(text: string, marks: set<char>) {
    forall i :: 0 <= i < |text| ==> text[i] !in marks
  }

  lemma {:induction false} TailEnds(a: string, c: char, x: string, marks: set<char>)
    requires c in marks && Unmarked(x, marks)
    ensures TailRun(a + [c] + x, marks) == |x|
    decreases |x|
  {
    var text := a + [c] + x;
    if x != [] {
      assert text[..|text| - 1] == a + [c] + x[..|x| - 1];
      TailEnds(a, c, x[..|x| - 1], marks);
    }
  }

  /** A text splits at its last mark in one way. */
  lemma LastMark(a: string, c: char, x: string, b: string, d: char, y: string, marks: set<char>)
    requires a + [c] + x == b + [d] + y && c in marks && d in marks && Unmarked(x, marks) && Unmarked(y, marks)
    ensures a == b && c == d && x == y
  {
    TailEnds(a, c, x, marks);
    TailEnds(b, d, y, marks);
    var text := a + [c] + x;
    assert a == text[..|text| - |x| - 1] == b;
    assert x == text[|text| - |x|..] == y;
    assert text[|a|] == c && text[|b|] == d;
  }
}
