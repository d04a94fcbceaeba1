/** The fields of manifest lines: quoted strings, flags, numbers and dependency lines. */
module ManifestFields {
  import opened Wrappers
  import opened Decimals
  import opened ModuleCacheKey

  // ------------------------------------------------------------------ quoted strings

  /** The value with a backslash before every quote and backslash. */
  function Escaped(value: string): string {
    if value == "" then ""
    else (if value[0] == '"' || value[0] == '\\' then ['\\', value[0]] else [value[0]]) + Escaped(value[1..])
  }

  function Quoted(value: string): string {
    ['"'] + Escaped(value) + ['"']
  }

  function Prepend(c: char, r: Option<(string, string)>): Option<(string, string)> {
    match r
    case Some(p) => Some(([c] + p.0, p.1))
    case None => None
  }

  /** The value up to the closing quote, and the text behind it. */
  function Unescape(s: string): (r: Option<(string, string)>)
    ensures r.Some? ==> |r.value.1| < |s|
  {
    if s == "" then None
    else if s[0] == '"' then Some(("", s[1..]))
    else if s[0] != '\\' then Prepend(s[0], Unescape(s[1..]))
    else if |s| == 1 then None
    else Prepend(s[1], Unescape(s[2..]))
  }

  lemma {:induction false} Unescaped(value: string, x: string)
    ensures Unescape(Escaped(value) + (['"'] + x)) == Some((value, x))
  {
    var s := Escaped(value) + (['"'] + x);
    if value == "" {
      assert s == ['"'] + x;
    } else {
      Unescaped(value[1..], x);
      var rest := Escaped(value[1..]) + (['"'] + x);
      assert [value[0]] + value[1..] == value;
      if value[0] == '"' || value[0] == '\\' {
        assert s == ['\\', value[0]] + rest;
        assert s[2..] == rest;
      } else {
        assert s == [value[0]] + rest;
        assert s[1..] == rest;
      }
    }
  }

  lemma {:induction false} UnescapedRest(s: string)
    requires Unescape(s).Some?
    ensures Unescape(s).value.1 == s[|s| - |Unescape(s).value.1|..]
  {
    if s[0] != '"' {
      UnescapedRest(if s[0] != '\\' then s[1..] else s[2..]);
    }
  }

  predicate IsSpace(c: char) {
    c in {' ', '\t', '\n', '\U{000B}', '\U{000C}', '\r'}
  }

  function SkipSpace(s: string): (r: string)
    ensures r != "" ==> !IsSpace(r[0])
  {
    if s != "" && IsSpace(s[0]) then SkipSpace(s[1..]) else s
  }

  function WordLength(s: string): (n: nat)
    ensures n <= |s|
  {
    if s != "" && !IsSpace(s[0]) then 1 + WordLength(s[1..]) else 0
  }

  // ------------------------------------------------------------------- single fields

  /** A quoted value, or a single word, and nothing but blanks behind it. */
  function QuotedField(line: string, prefix: string): Option<string> {
    if !(prefix <= line) then None else QuotedText(SkipSpace(line[|prefix|..]))
  }

  function QuotedText(text: string): Option<string> {
    if text == "" then None
    else if text[0] == '"' then
      match Unescape(text[1..])
      case Some(p) => if SkipSpace(p.1) == "" then Some(p.0) else None
      case None => None
    else
      var n := WordLength(text);
      if SkipSpace(text[n..]) == "" then Some(text[..n]) else None
  }

  lemma QuotedFieldRead(prefix: string, value: string)
    ensures QuotedField(prefix + Quoted(value), prefix) == Some(value)
  {
    hide Escaped, Unescape;
    assert (prefix + Quoted(value))[|prefix|..] == Quoted(value);
    assert Quoted(value)[1..] == Escaped(value) + (['"'] + "");
    Unescaped(value, "");
  }

  function BooleanField(line: string, prefix: string): Option<bool> {
    if !(prefix <= line) then None
    else if line[|prefix|..] == "true" then Some(true)
    else if line[|prefix|..] == "false" then Some(false)
    else None
  }

  lemma BooleanFieldRead(prefix: string, b: bool)
    ensures BooleanField(prefix + BoolName(b), prefix) == Some(b)
  {
    assert (prefix + BoolName(b))[|prefix|..] == BoolName(b);
    assert BoolName(b)[0] == if b then 't' else 'f';
  }

  const SIZE_LIMIT: nat := 0x1_0000_0000_0000_0000

  predicate Digits(text: string) {
    forall i :: 0 <= i < |text| ==> IsDigit(text[i])
  }

  /** A number that fits in 64 bits. */
  function Size(text: string): Option<nat> {
    if text == "" || !Digits(text) then None
    else if ValueOf(text) >= SIZE_LIMIT then None
    else Some(ValueOf(text))
  }

  lemma SizeRead(n: nat)
    requires n < SIZE_LIMIT
    ensures Size(Decimal(n)) == Some(n)
  {
    hide Decimal, ValueOf, IsDigit;
    DecimalValue(n);
  }

  function SizeField(line: string, prefix: string): Option<nat> {
    if !(prefix <= line) then None else Size(line[|prefix|..])
  }

  lemma SizeFieldRead(prefix: string, n: nat)
    requires n < SIZE_LIMIT
    ensures SizeField(prefix + Decimal(n), prefix) == Some(n)
  {
    hide Size, Decimal;
    assert (prefix + Decimal(n))[|prefix|..] == Decimal(n);
    SizeRead(n);
  }

  // --------------------------------------------------------------- dependency lines

  function KindOf(text: string): Option<DependencyKind> {
    if text == "import" then Some(Import) else if text == "re_export" then Some(ReExport) else None
  }

  /** Where the next space is, if there is one. */
  function SpaceAt(s: string): (r: Option<nat>)
    ensures r.Some? ==> r.value < |s|
  {
    if s == "" then None
    else if s[0] == ' ' then Some(0)
    else match SpaceAt(s[1..]) case Some(n) => Some(n + 1) case None => None
  }

  lemma {:induction false} SpaceFound(a: string, x: string)
    requires ' ' !in a && x != "" && x[0] == ' '
    ensures SpaceAt(a + x) == Some(|a|)
  {
    if a == "" {
      assert a + x == x;
    } else {
      SpaceFound(a[1..], x);
      assert (a + x)[1..] == a[1..] + x;
    }
  }

  function Consume(rest: string, text: string): Option<string> {
    if text <= rest then Some(rest[|text|..]) else None
  }

  function ReadQuoted(rest: string): Option<(string, string)> {
    if rest == "" || rest[0] != '"' then None else Unescape(rest[1..])
  }

  function ReadIndex(line: string): Option<(nat, string)> {
    var rest :- Consume(line, "    d");
    var n :- SpaceAt(rest);
    var index :- Size(rest[..n]);
    Some((index, rest[n..]))
  }

  function ReadKind(rest: string): Option<(DependencyKind, string)> {
    var n :- SpaceAt(rest);
    var kind :- KindOf(rest[..n]);
    Some((kind, rest[n..]))
  }

  /** The dependency of a line with the expected index. */
  function DependencyOf(line: string, expectedIndex: nat): Option<Dependency> {
    var (index, r0) :- ReadIndex(line);
    if index != expectedIndex then None
    else
      var r1 :- Consume(r0, " target=");
      var (identity, r2) :- ReadQuoted(r1);
      var r3 :- Consume(r2, " kind=");
      var (kind, r4) :- ReadKind(r3);
      var r5 :- Consume(r4, " requested=");
      var (requestedPath, r6) :- ReadQuoted(r5);
      var r7 :- Consume(r6, " interface=");
      var (interfaceHash, r8) :- ReadQuoted(r7);
      if r8 == "" then Some(Dependency(identity, kind, requestedPath, interfaceHash)) else None
  }

  function DependencyLine(d: Dependency, index: nat): string {
    "    d" + (Decimal(index) + DependencyTail(d))
  }

  function DependencyTail(d: Dependency): string {
    " target=" + (Quoted(d.identity) + (" kind=" + (KindName(d.kind)
    + (" requested=" + (Quoted(d.requestedPath) + (" interface=" + (Quoted(d.interfaceHash) + "")))))))
  }

  lemma Consumed(text: string, x: string)
    ensures Consume(text + x, text) == Some(x)
  {
    assert (text + x)[|text|..] == x;
  }

  lemma QuotedRead(value: string, x: string)
    ensures ReadQuoted(Quoted(value) + x) == Some((value, x))
  {
    hide Escaped, Unescape;
    assert (Quoted(value) + x)[1..] == Escaped(value) + (['"'] + x);
    Unescaped(value, x);
  }

  lemma KindRead(kind: DependencyKind, x: string)
    requires x != "" && x[0] == ' '
    ensures ReadKind(KindName(kind) + x) == Some((kind, x))
  {
    hide SpaceAt;
    SpaceFound(KindName(kind), x);
    var rest := KindName(kind) + x;
    assert rest[..|KindName(kind)|] == KindName(kind) && rest[|KindName(kind)|..] == x;
    assert KindName(kind)[0] == if kind == Import then 'i' else 'r';
  }

  lemma IndexRead(index: nat, x: string)
    requires index < SIZE_LIMIT && x != "" && x[0] == ' '
    ensures ReadIndex("    d" + (Decimal(index) + x)) == Some((index, x))
  {
    hide SpaceAt, Size, Consume;
    Consumed("    d", Decimal(index) + x);
    DecimalDigits(index);
    SpaceFound(Decimal(index), x);
    var rest := Decimal(index) + x;
    assert rest[..|Decimal(index)|] == Decimal(index) && rest[|Decimal(index)|..] == x;
    SizeRead(index);
  }

  /** What is written for a dependency is read back, whatever its strings contain. */
  lemma DependencyRead(d: Dependency, index: nat)
    requires index < SIZE_LIMIT
    ensures DependencyOf(DependencyLine(d, index), index) == Some(d)
  {
    hide Quoted, KindName, Decimal, Consume, ReadQuoted, ReadKind, ReadIndex;
    var r7 := Quoted(d.interfaceHash) + "";
    var r6 := " interface=" + r7;
    var r5 := Quoted(d.requestedPath) + r6;
    var r4 := " requested=" + r5;
    var r3 := KindName(d.kind) + r4;
    var r2 := " kind=" + r3;
    var r1 := Quoted(d.identity) + r2;
    var r0 := " target=" + r1;
    IndexRead(index, r0);
    Consumed(" target=", r1);
    QuotedRead(d.identity, r2);
    Consumed(" kind=", r3);
    KindRead(d.kind, r4);
    Consumed(" requested=", r5);
    QuotedRead(d.requestedPath, r6);
    Consumed(" interface=", r7);
    QuotedRead(d.interfaceHash, "");
  }
}
