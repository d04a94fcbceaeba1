/** The text of the manifest, what its reader makes of it, and the exact condition under which
    what was written is read back.
 */
module ManifestFormat {
  import opened Wrappers
  import opened Decimals
  import opened ModuleCacheKey
  import opened ManifestFields
  import ModuleCachePlanner

  type Record = ModuleCachePlanner.Record

  // ----------------------------------------------------------------- what is read

  /** A line that is not empty, with its number in the file. */
  datatype Line = Line(number: nat, text: string)

  datatype Outcome<T> = Done(value: T) | Failed(line: nat, message: string)

  /** The hash of key texts, where the interface of an identity is stored, and which paths are
      relative and in normal form.
   */
  datatype Environment = Environment(hash: string -> string, interfacePath: string -> string, normal: string -> bool)

  function KeyOf(m: Module, env: Environment): string {
    env.hash(KeyText(m))
  }

  /** Key and paths are those of the module. */
  predicate Consistent(r: Record, env: Environment) {
    && r.unit.cacheKey == KeyOf(r.unit, env)
    && r.artifactPath == ModuleCachePlanner.ArtifactPath(r.unit)
    && r.interfaceArtifactPath == env.interfacePath(r.unit.identity)
  }

  predicate FieldsRight(r: Record, env: Environment) {
    && r.unit.identity != "" && r.unit.optimizationLevel != "" && r.unit.optimizerPipeline != ""
    && env.normal(r.artifactPath) && r.interfaceArtifactPath != "" && env.normal(r.interfaceArtifactPath)
  }

  /** The quoted fields of a record, in the order of the file. */
  const PREFIXES := [
    "  identity = ", "  source = ", "  interface = ", "  optimization_level = ", "  optimizer_pipeline = ", "  key = ",
    "  artifact = ", "  interface_artifact = "]

  function Values(r: Record): (values: seq<string>)
    ensures |values| == |PREFIXES|
  {
    [
      r.unit.identity, r.unit.sourceHash, r.unit.interfaceHash, r.unit.optimizationLevel, r.unit.optimizerPipeline,
      r.unit.cacheKey, r.artifactPath, r.interfaceArtifactPath]
  }

  function RecordOf(values: seq<string>, isEntry: bool): Record
    requires |values| == |PREFIXES|
  {
    ModuleCachePlanner.Record(
      Module(values[0], values[1], values[2], values[3], values[4], isEntry, None, [], values[5]), values[6], values[7])
  }

  function FieldsFrom(ls: seq<Line>, k: nat): (r: Option<seq<string>>)
    requires k <= |PREFIXES| < |ls|
    ensures r.Some? ==> |r.value| == |PREFIXES| - k
    decreases |PREFIXES| - k
  {
    if k == |PREFIXES| then Some([])
    else
      var value :- QuotedField(ls[k].text, PREFIXES[k]);
      var values :- FieldsFrom(ls, k + 1);
      Some([value] + values)
  }

  /** The nine lines that every record starts with. */
  function ParseFields(ls: seq<Line>): (r: Option<Record>)
    ensures r.Some? ==> |ls| > |PREFIXES|
  {
    if |ls| <= |PREFIXES| then None
    else
      var values :- FieldsFrom(ls, 0);
      var isEntry :- BooleanField(ls[|PREFIXES|].text, "  entry = ");
      Some(RecordOf(values, isEntry))
  }

  const ORDER_PREFIX := "  entry_order = "

  function LineOr(ls: seq<Line>, number: nat): nat {
    if ls == [] then number else ls[0].number
  }

  function ParseEntryOrder(ls: seq<Line>): (r: (Outcome<Option<nat>>, seq<Line>))
    ensures |r.1| <= |ls|
  {
    if ls != [] && ORDER_PREFIX <= ls[0].text then
      match SizeField(ls[0].text, ORDER_PREFIX)
      case Some(n) => (Done(Some(n)), ls[1..])
      case None => (Failed(ls[0].number, "invalid entry order"), ls)
    else (Done(None), ls)
  }

  function ParseDependencies(ls: seq<Line>, ds: seq<Dependency>, header: nat)
    : (r: (Outcome<seq<Dependency>>, seq<Line>))
    ensures |r.1| <= |ls|
  {
    if ls == [] then (Failed(header, "unterminated module record"), ls)
    else if ls[0].text == "end" then (Done(ds), ls[1..])
    else
      match DependencyOf(ls[0].text, |ds|)
      case Some(d) =>
        if d.identity == "" then (Failed(ls[0].number, "invalid dependency record"), ls)
        else ParseDependencies(ls[1..], ds + [d], header)
      case None => (Failed(ls[0].number, "invalid dependency record"), ls)
  }

  /** A record, and the lines behind it. */
  function ParseRecord(ls: seq<Line>, index: nat, env: Environment): (r: (Outcome<Record>, seq<Line>))
    requires ls != []
    ensures |r.1| < |ls|
  {
    var header := ls[0];
    if !("module " <= header.text) then (Failed(header.number, "expected module record"), [])
    else if SizeField(header.text, "module ") != Some(index) then
      (Failed(header.number, "module records must be ordered from zero"), [])
    else
      match ParseFields(ls[1..])
      case None => (Failed(LineOr(ls[1..], header.number), "invalid module fields"), [])
      case Some(record) =>
        if !FieldsRight(record, env) then (Failed(header.number, "invalid module identity, key, or artifact path"), [])
        else ParseTail(ls[|PREFIXES| + 2..], record, header.number, env)
  }

  /** What follows the fields of a record. */
  function ParseTail(ls: seq<Line>, fields: Record, header: nat, env: Environment): (r: (Outcome<Record>, seq<Line>))
    ensures |r.1| <= |ls|
  {
    match ParseEntryOrder(ls)
    case (Failed(line, message), _) => (Failed(line, message), [])
    case (Done(order), rest) =>
      if fields.unit.isEntry != order.Some? then (Failed(header, "entry order must match entry flag"), [])
      else if rest == [] || rest[0].text != "  dependencies:" then
        (Failed(LineOr(rest, header), "expected dependencies:"), [])
      else
        match ParseDependencies(rest[1..], [], header)
        case (Failed(line, message), _) => (Failed(line, message), [])
        case (Done(ds), last) =>
          var record := Completed(fields, order, ds);
          if Consistent(record, env) then (Done(record), last)
          else (Failed(header, "artifact path does not match module key"), [])
  }

  function Completed(fields: Record, order: Option<nat>, ds: seq<Dependency>): Record {
    fields.(unit := fields.unit.(entryOrder := order, dependencies := ds))
  }

  predicate UniqueIdentities(records: seq<Record>) {
    forall i, j :: 0 <= i < j < |records| ==> records[i].unit.identity != records[j].unit.identity
  }

  function ParseRecords(ls: seq<Line>, records: seq<Record>, env: Environment): Outcome<seq<Record>>
    decreases |ls|
  {
    if ls == [] then
      if UniqueIdentities(records) then Done(records) else Failed(1, "duplicate module identity")
    else
      match ParseRecord(ls, |records|, env)
      case (Done(record), rest) => ParseRecords(rest, records + [record], env)
      case (Failed(line, message), _) => Failed(line, message)
  }

  function ParseManifest(ls: seq<Line>, env: Environment): Outcome<seq<Record>> {
    if ls == [] || ls[0].text != "cdbc-cache 0.2" then Failed(LineOr(ls, 1), "expected cdbc-cache 0.2")
    else
      var ls := ls[1..];
      if ls == [] || SizeField(ls[0].text, "schema = ") != Some(3) then Failed(LineOr(ls, 1), "expected schema = 3")
      else
        var ls := ls[1..];
        if ls == [] || ls[0].text != "modules:" then Failed(LineOr(ls, 1), "expected modules:")
        else ParseRecords(ls[1..], [], env)
  }

  // -------------------------------------------------------------- what is accepted

  predicate NamedDependencies(ds: seq<Dependency>) {
    forall k :: 0 <= k < |ds| ==> ds[k].identity != ""
  }

  /** What the reader demands of a record besides its key and paths. */
  predicate Storable(r: Record, env: Environment) {
    FieldsRight(r, env) && r.unit.isEntry == r.unit.entryOrder.Some? && NamedDependencies(r.unit.dependencies)
  }

  predicate Accepted(records: seq<Record>, env: Environment) {
    forall k :: 0 <= k < |records| ==> Storable(records[k], env) && Consistent(records[k], env)
  }

  lemma {:induction false} DependenciesAccepted(ls: seq<Line>, ds: seq<Dependency>, header: nat)
    requires ParseDependencies(ls, ds, header).0.Done? && NamedDependencies(ds)
    ensures NamedDependencies(ParseDependencies(ls, ds, header).0.value)
    decreases |ls|
  {
    hide DependencyOf;
    if ls[0].text != "end" {
      DependenciesAccepted(ls[1..], ds + [DependencyOf(ls[0].text, |ds|).value], header);
    }
  }

  lemma TailAccepted(ls: seq<Line>, fields: Record, header: nat, env: Environment)
    requires FieldsRight(fields, env) && ParseTail(ls, fields, header, env).0.Done?
    ensures
      var r := ParseTail(ls, fields, header, env).0.value;
      Storable(r, env) && Consistent(r, env)
  {
    hide ParseDependencies, ParseEntryOrder, Consistent, NamedDependencies;
    NothingNamed();
    DependenciesAccepted(ParseEntryOrder(ls).1[1..], [], header);
  }

  lemma RecordAccepted(ls: seq<Line>, index: nat, env: Environment)
    requires ls != [] && ParseRecord(ls, index, env).0.Done?
    ensures
      var r := ParseRecord(ls, index, env).0.value;
      Storable(r, env) && Consistent(r, env)
  {
    hide ParseFields, SizeField, ParseTail, FieldsRight, Storable, Consistent;
    TailAccepted(ls[|PREFIXES| + 2..], ParseFields(ls[1..]).value, ls[0].number, env);
  }

  lemma NothingNamed()
    ensures NamedDependencies([])
  {
  }

  /** Every manifest that is read satisfies what its readers rely on. */
  lemma {:induction false} ReadAccepted(ls: seq<Line>, records: seq<Record>, env: Environment)
    requires ParseRecords(ls, records, env).Done? && Accepted(records, env)
    ensures
      var r := ParseRecords(ls, records, env).value;
      Accepted(r, env) && UniqueIdentities(r)
    decreases |ls|
  {
    hide ParseRecord, Storable, Consistent, UniqueIdentities;
    if ls != [] {
      RecordAccepted(ls, |records|, env);
      var next := ParseRecord(ls, |records|, env);
      ReadAccepted(next.1, records + [next.0.value], env);
    }
  }

  // ---------------------------------------------------------------- what is written

  function FieldLines(r: Record, k: nat): seq<string>
    requires k <= |PREFIXES|
    decreases |PREFIXES| - k
  {
    if k == |PREFIXES| then [] else [PREFIXES[k] + Quoted(Values(r)[k])] + FieldLines(r, k + 1)
  }

  function OrderLines(order: Option<nat>): seq<string> {
    if order.Some? then [ORDER_PREFIX + Decimal(order.value)] else []
  }

  function DependencyLines(ds: seq<Dependency>, k: nat): seq<string>
    requires k <= |ds|
    decreases |ds| - k
  {
    if k == |ds| then [] else [DependencyLine(ds[k], k)] + DependencyLines(ds, k + 1)
  }

  function EntryLine(r: Record): string {
    "  entry = " + BoolName(r.unit.isEntry)
  }

  function RecordLines(r: Record, index: nat): seq<string> {
    ["module " + Decimal(index)] + (FieldLines(r, 0) + ([EntryLine(r)] + TailLines(r)))
  }

  function TailLines(r: Record): seq<string> {
    OrderLines(r.unit.entryOrder) + (["  dependencies:"] + (DependencyLines(r.unit.dependencies, 0) + ["end"]))
  }

  function AllLines(records: seq<Record>, index: nat): seq<string> {
    if records == [] then [] else RecordLines(records[0], index) + AllLines(records[1..], index + 1)
  }

  const HEADER := ["cdbc-cache 0.2", "", "schema = 3", "modules:"]

  // ----------------------------------------------------------- reading what is written

  /** The first lines are these. */
  predicate Begins(ls: seq<Line>, lines: seq<string>) {
    |lines| <= |ls| && forall i :: 0 <= i < |lines| ==> ls[i].text == lines[i]
  }

  lemma BeginsParts(ls: seq<Line>, a: seq<string>, b: seq<string>)
    requires Begins(ls, a + b)
    ensures Begins(ls, a) && |a| <= |ls| && Begins(ls[|a|..], b)
  {
    forall i | 0 <= i < |a| ensures ls[i].text == a[i] {
      assert (a + b)[i] == a[i];
    }
    forall i | 0 <= i < |b| ensures ls[|a|..][i].text == b[i] {
      assert (a + b)[|a| + i] == b[i];
    }
  }

  lemma BeginsFirst(ls: seq<Line>, line: string, b: seq<string>)
    requires Begins(ls, [line] + b)
    ensures ls != [] && ls[0].text == line && Begins(ls[1..], b)
  {
    BeginsParts(ls, [line], b);
  }

  lemma {:induction false} FieldsRead(ls: seq<Line>, r: Record, k: nat)
    requires k <= |PREFIXES| < |ls| && Begins(ls[k..], FieldLines(r, k))
    ensures FieldsFrom(ls, k) == Some(Values(r)[k..])
    decreases |PREFIXES| - k
  {
    hide QuotedField, Quoted, Values, Begins;
    if k < |PREFIXES| {
      BeginsFirst(ls[k..], PREFIXES[k] + Quoted(Values(r)[k]), FieldLines(r, k + 1));
      assert ls[k..][1..] == ls[k + 1..] && ls[k..][0] == ls[k];
      QuotedFieldRead(PREFIXES[k], Values(r)[k]);
      FieldsRead(ls, r, k + 1);
      assert Values(r)[k..] == [Values(r)[k]] + Values(r)[k + 1..];
    }
  }

  lemma {:induction false} DependenciesRead(ls: seq<Line>, ds: seq<Dependency>, k: nat, header: nat)
    requires k <= |ds| < SIZE_LIMIT && Begins(ls, DependencyLines(ds, k) + ["end"])
    ensures |DependencyLines(ds, k)| < |ls|
    ensures
      var r := ParseDependencies(ls, ds[..k], header);
      if NamedDependencies(ds[k..]) then r == (Done(ds), ls[|DependencyLines(ds, k)| + 1..]) else r.0.Failed?
    decreases |ds| - k
  {
    hide DependencyOf, DependencyLine, Begins;
    if k == |ds| {
      assert DependencyLines(ds, k) + ["end"] == ["end"] + [];
      BeginsFirst(ls, "end", []);
      assert ds[..k] == ds;
    } else {
      var rest := DependencyLines(ds, k + 1) + ["end"];
      assert DependencyLines(ds, k) + ["end"] == [DependencyLine(ds[k], k)] + rest;
      BeginsFirst(ls, DependencyLine(ds[k], k), rest);
      NotEnd(ds[k], k);
      DependencyRead(ds[k], k);
      DependenciesRead(ls[1..], ds, k + 1, header);
      assert ds[..k + 1] == ds[..k] + [ds[k]];
      NamedFrom(ds, k);
    }
  }

  lemma NotEnd(d: Dependency, k: nat)
    ensures DependencyLine(d, k) != "end"
  {
    hide DependencyTail, Decimal;
    assert DependencyLine(d, k)[0] == ' ';
  }

  lemma NamedFrom(ds: seq<Dependency>, k: nat)
    requires k < |ds|
    ensures NamedDependencies(ds[k..]) <==> ds[k].identity != "" && NamedDependencies(ds[k + 1..])
  {
    assert ds[k..] == [ds[k]] + ds[k + 1..];
    if NamedDependencies(ds[k..]) {
      var rest := ds[k + 1..];
      assert ds[k..][0] == ds[k];
      forall i | 0 <= i < |rest| ensures rest[i].identity != "" {
        assert ds[k..][i + 1] == rest[i];
      }
    }
  }

  lemma OrderRead(ls: seq<Line>, order: Option<nat>, b: seq<string>)
    requires Begins(ls, OrderLines(order) + (["  dependencies:"] + b)) && (order.Some? ==> order.value < SIZE_LIMIT)
    ensures ParseEntryOrder(ls).0 == Done(order)
    ensures ParseEntryOrder(ls).1 != [] && ParseEntryOrder(ls).1[0].text == "  dependencies:"
    ensures Begins(ParseEntryOrder(ls).1[1..], b) && ParseEntryOrder(ls).1 == ls[|OrderLines(order)|..]
  {
    hide Begins, SizeField, Decimal;
    BeginsParts(ls, OrderLines(order), ["  dependencies:"] + b);
    BeginsFirst(ls[|OrderLines(order)|..], "  dependencies:", b);
    if order.Some? {
      BeginsFirst(ls, ORDER_PREFIX + Decimal(order.value), ["  dependencies:"] + b);
      SizeFieldRead(ORDER_PREFIX, order.value);
    } else {
      assert ls[0..] == ls;
      NoOrder();
    }
  }

  lemma NoOrder()
    ensures !(ORDER_PREFIX <= "  dependencies:")
  {
    assert ORDER_PREFIX[2] == 'e';
  }

  /** A record whose strings were quoted: what the reader then checks is all that can fail. */
  lemma TailRead(ls: seq<Line>, r: Record, fields: Record, header: nat, env: Environment)
    requires Begins(ls, TailLines(r)) && Consistent(r, env) && FieldsRight(r, env)
    requires fields == r.(unit := r.unit.(entryOrder := None, dependencies := []))
    requires Fits(r)
    ensures |TailLines(r)| <= |ls|
    ensures
      var p := ParseTail(ls, fields, header, env);
      if Storable(r, env) then p == (Done(r), ls[|TailLines(r)|..]) else p.0.Failed?
  {
    hide Begins, ParseEntryOrder, ParseDependencies, DependencyLines, OrderLines, Consistent, FieldsRight;
    hide NamedDependencies;
    var order, ds := r.unit.entryOrder, r.unit.dependencies;
    BeginsLength(ls, TailLines(r));
    OrderRead(ls, order, DependencyLines(ds, 0) + ["end"]);
    var rest := ParseEntryOrder(ls).1;
    DependenciesRead(rest[1..], ds, 0, header);
    assert ds[..0] == [] && ds[0..] == ds;
    assert Completed(fields, order, ds) == r;
    var n := |OrderLines(order)|;
    assert rest[1..][|DependencyLines(ds, 0)| + 1..] == ls[n + 1 + |DependencyLines(ds, 0)| + 1..];
  }

  lemma BeginsLength(ls: seq<Line>, lines: seq<string>)
    requires Begins(ls, lines)
    ensures |lines| <= |ls|
  {
  }

  /** The numbers of a record fit in 64 bits. */
  predicate Fits(r: Record) {
    && |r.unit.dependencies| < SIZE_LIMIT
    && (r.unit.entryOrder.Some? ==> r.unit.entryOrder.value < SIZE_LIMIT)
  }

  lemma FieldsCount(r: Record, k: nat)
    requires k <= |PREFIXES|
    ensures |FieldLines(r, k)| == |PREFIXES| - k
    decreases |PREFIXES| - k
  {
    hide Values, Quoted;
    if k < |PREFIXES| {
      FieldsCount(r, k + 1);
    }
  }

  lemma ParsedFields(ls: seq<Line>, r: Record, tail: seq<string>)
    requires Begins(ls, FieldLines(r, 0) + ([EntryLine(r)] + tail))
    ensures
      ParseFields(ls) == Some(r.(unit := r.unit.(entryOrder := None, dependencies := [])))
    ensures Begins(ls[|PREFIXES| + 1..], tail)
  {
    hide Begins, FieldLines, FieldsFrom, BooleanField, BoolName;
    FieldsCount(r, 0);
    BeginsParts(ls, FieldLines(r, 0), [EntryLine(r)] + tail);
    BeginsFirst(ls[|PREFIXES|..], EntryLine(r), tail);
    assert ls[|PREFIXES|..][0] == ls[|PREFIXES|] && ls[|PREFIXES|..][1..] == ls[|PREFIXES| + 1..];
    assert ls[0..] == ls;
    FieldsRead(ls, r, 0);
    assert Values(r)[0..] == Values(r);
    BooleanFieldRead("  entry = ", r.unit.isEntry);
  }

  /** A record with the right key and paths is read back exactly when it is storable. */
  lemma RecordRead(ls: seq<Line>, r: Record, index: nat, env: Environment)
    requires Begins(ls, RecordLines(r, index)) && Consistent(r, env) && Fits(r) && index < SIZE_LIMIT
    ensures 0 < |RecordLines(r, index)| <= |ls|
    ensures
      var p := ParseRecord(ls, index, env);
      if Storable(r, env) then p == (Done(r), ls[|RecordLines(r, index)|..]) else p.0.Failed?
  {
    hide Begins, FieldLines, TailLines, ParseFields, ParseTail, SizeField, Decimal, Consistent, FieldsRight;
    hide NamedDependencies, Fits;
    var tail := TailLines(r);
    BeginsLength(ls, RecordLines(r, index));
    BeginsFirst(ls, "module " + Decimal(index), FieldLines(r, 0) + ([EntryLine(r)] + tail));
    SizeFieldRead("module ", index);
    ParsedFields(ls[1..], r, tail);
    FieldsCount(r, 0);
    var rest := ls[|PREFIXES| + 2..];
    assert ls[1..][|PREFIXES| + 1..] == rest;
    if FieldsRight(r, env) {
      FieldsKept(r, env);
      TailRead(rest, r, r.(unit := r.unit.(entryOrder := None, dependencies := [])), ls[0].number, env);
      assert rest[|tail|..] == ls[|RecordLines(r, index)|..];
    } else {
      FieldsKept(r, env);
    }
  }

  lemma FieldsKept(r: Record, env: Environment)
    ensures FieldsRight(r.(unit := r.unit.(entryOrder := None, dependencies := [])), env) == FieldsRight(r, env)
  {
  }

  predicate AllStorable(records: seq<Record>, env: Environment) {
    forall k :: 0 <= k < |records| ==> Storable(records[k], env)
  }

  /** Records to be written: key and paths filled in, numbers of 64 bits. */
  predicate Writable(records: seq<Record>, env: Environment) {
    forall k :: 0 <= k < |records| ==> Consistent(records[k], env) && Fits(records[k])
  }

  lemma {:induction false} RecordsRead(ls: seq<Line>, records: seq<Record>, done: seq<Record>, env: Environment)
    requires |ls| == |AllLines(records, |done|)| && Begins(ls, AllLines(records, |done|))
    requires Writable(records, env) && |done| + |records| < SIZE_LIMIT
    ensures
      ParseRecords(ls, done, env) == Done(done + records)
      <==> AllStorable(records, env) && UniqueIdentities(done + records)
    ensures ParseRecords(ls, done, env).Done? ==> AllStorable(records, env) && UniqueIdentities(done + records)
    decreases |records|
  {
    hide Begins, RecordLines, ParseRecord, UniqueIdentities, Storable, Consistent, Fits;
    if records == [] {
      assert done + records == done;
    } else {
      var r, lines, rest := records[0], RecordLines(records[0], |done|), AllLines(records[1..], |done| + 1);
      assert Consistent(r, env) && Fits(r);
      BeginsParts(ls, lines, rest);
      RecordRead(ls, r, |done|, env);
      if Storable(r, env) {
        RecordsRead(ls[|lines|..], records[1..], done + [r], env);
        assert done + records == done + [r] + records[1..];
        StorableRest(records, env);
      }
    }
  }

  lemma StorableRest(records: seq<Record>, env: Environment)
    requires records != [] && Storable(records[0], env)
    ensures AllStorable(records, env) <==> AllStorable(records[1..], env)
  {
    hide Storable;
    assert records == [records[0]] + records[1..];
    var rest := records[1..];
    if AllStorable(records, env) {
      forall k | 0 <= k < |rest| ensures Storable(rest[k], env) {
        assert rest[k] == records[k + 1];
      }
    }
  }

  // ----------------------------------------------------------------- texts and lines

  function Joined(lines: seq<string>): string {
    if lines == [] then "" else lines[0] + (['\n'] + Joined(lines[1..]))
  }

  lemma {:induction false} JoinedParts(a: seq<string>, b: seq<string>)
    ensures Joined(a + b) == Joined(a) + Joined(b)
  {
    if a == [] {
      assert a + b == b;
    } else {
      JoinedParts(a[1..], b);
      assert (a + b)[1..] == a[1..] + b && (a + b)[0] == a[0];
    }
  }

  function Chomp(line: string): string {
    if line != "" && line[|line| - 1] == '\r' then line[..|line| - 1] else line
  }

  /** The lines of a text behind the part of a line already read. */
  function SplitLines(text: string, current: string): seq<string> {
    if text == "" then if current == "" then [] else [Chomp(current)]
    else if text[0] == '\n' then [Chomp(current)] + SplitLines(text[1..], "")
    else SplitLines(text[1..], current + [text[0]])
  }

  method ReadLines(text: string) returns (lines: seq<string>)
    ensures lines == SplitLines(text, "")
  {
    lines := [];
    var current := "";
    for k := 0 to |text|
      invariant lines + SplitLines(text[k..], current) == SplitLines(text, "")
    {
      assert text[k..][0] == text[k] && text[k..][1..] == text[k + 1..];
      if text[k] == '\n' {
        lines, current := lines + [Chomp(current)], "";
      } else {
        current := current + [text[k]];
      }
    }
    assert text[|text|..] == "";
    if current != "" {
      lines := lines + [Chomp(current)];
    }
  }

  lemma {:induction false} LineSplit(line: string, rest: string, current: string)
    requires '\n' !in line
    ensures SplitLines(line + (['\n'] + rest), current) == [Chomp(current + line)] + SplitLines(rest, "")
    decreases |line|
  {
    hide Chomp;
    var text := line + (['\n'] + rest);
    if line == "" {
      assert text[1..] == rest && current + line == current;
    } else {
      LineSplit(line[1..], rest, current + [line[0]]);
      assert text[1..] == line[1..] + (['\n'] + rest);
      assert current + [line[0]] + line[1..] == current + line;
    }
  }

  /** A line that comes back as it was written. */
  predicate LineRight(line: string) {
    '\n' !in line && Chomp(line) == line
  }

  predicate LinesRight(lines: seq<string>) {
    forall k :: 0 <= k < |lines| ==> LineRight(lines[k])
  }

  lemma {:induction false} SplitJoined(lines: seq<string>)
    requires LinesRight(lines)
    ensures SplitLines(Joined(lines), "") == lines
  {
    hide Chomp;
    if lines != [] {
      assert LineRight(lines[0]);
      LineSplit(lines[0], Joined(lines[1..]), "");
      assert "" + lines[0] == lines[0];
      SplitJoined(lines[1..]);
    }
  }

  /** The lines from `k` on that are not empty. */
  function Numbered(lines: seq<string>, k: nat): seq<Line>
    requires k <= |lines|
    decreases |lines| - k
  {
    if k == |lines| then []
    else if lines[k] == "" then Numbered(lines, k + 1)
    else [Line(k + 1, lines[k])] + Numbered(lines, k + 1)
  }

  predicate Filled(lines: seq<string>) {
    forall k :: 0 <= k < |lines| ==> lines[k] != ""
  }

  lemma {:induction false} NumberedFilled(lines: seq<string>, k: nat)
    requires k <= |lines| && Filled(lines[k..])
    ensures |Numbered(lines, k)| == |lines| - k && Begins(Numbered(lines, k), lines[k..])
    decreases |lines| - k
  {
    if k < |lines| {
      assert lines[k..] == [lines[k]] + lines[k + 1..];
      assert lines[k..][0] == lines[k];
      var rest := lines[k + 1..];
      forall i | 0 <= i < |rest| ensures rest[i] != "" {
        assert rest[i] == lines[k..][i + 1];
      }
      NumberedFilled(lines, k + 1);
    }
  }

  // ---------------------------------------------------------- no newline in any string

  predicate PlainDependency(d: Dependency) {
    '\n' !in d.identity && '\n' !in d.requestedPath && '\n' !in d.interfaceHash
  }

  predicate Plain(r: Record) {
    && (forall k :: 0 <= k < |PREFIXES| ==> '\n' !in Values(r)[k])
    && (forall k :: 0 <= k < |r.unit.dependencies| ==> PlainDependency(r.unit.dependencies[k]))
  }

  /** A line of a record: neither empty nor split. */
  predicate Solid(line: string) {
    line != "" && LineRight(line)
  }

  predicate AllSolid(lines: seq<string>) {
    forall k :: 0 <= k < |lines| ==> Solid(lines[k])
  }

  lemma SolidParts(a: seq<string>, b: seq<string>)
    requires AllSolid(a) && AllSolid(b)
    ensures AllSolid(a + b)
  {
    hide Solid;
  }

  lemma SolidOne(line: string, b: seq<string>)
    requires Solid(line) && AllSolid(b)
    ensures AllSolid([line] + b)
  {
    hide Solid;
  }

  lemma {:induction false} EscapedPlain(value: string)
    requires '\n' !in value
    ensures '\n' !in Escaped(value)
  {
    if value != "" {
      EscapedPlain(value[1..]);
    }
  }

  lemma QuotedSolid(start: string, value: string)
    requires '\n' !in start && '\n' !in value
    ensures Solid(start + Quoted(value)) && '\n' !in Quoted(value)
  {
    hide Escaped;
    EscapedPlain(value);
    var line := start + Quoted(value);
    assert line[|line| - 1] == '"';
  }

  lemma DecimalSolid(start: string, n: nat)
    requires '\n' !in start
    ensures Solid(start + Decimal(n))
  {
    hide Decimal;
    DecimalDigits(n);
    var line := start + Decimal(n);
    assert line[|line| - 1] == Decimal(n)[|Decimal(n)| - 1];
    forall i | 0 <= i < |line| ensures line[i] != '\n' {
      assert i >= |start| ==> line[i] == Decimal(n)[i - |start|];
    }
  }

  lemma PrefixPlain(k: nat)
    requires k < |PREFIXES|
    ensures '\n' !in PREFIXES[k]
  {
    assert PREFIXES[k]
        in {"  identity = ", "  source = ", "  interface = ", "  optimization_level = ", "  optimizer_pipeline = ",
            "  key = ", "  artifact = ", "  interface_artifact = "};
  }

  lemma {:induction false} FieldsSolid(r: Record, k: nat)
    requires k <= |PREFIXES| && Plain(r)
    ensures AllSolid(FieldLines(r, k))
    decreases |PREFIXES| - k
  {
    hide Solid, Quoted, Values;
    if k < |PREFIXES| {
      PrefixPlain(k);
      QuotedSolid(PREFIXES[k], Values(r)[k]);
      FieldsSolid(r, k + 1);
      SolidOne(PREFIXES[k] + Quoted(Values(r)[k]), FieldLines(r, k + 1));
    }
  }

  lemma SolidPrepend(a: string, line: string)
    requires '\n' !in a && Solid(line)
    ensures Solid(a + line)
  {
  }

  lemma DependencySolid(d: Dependency, k: nat)
    requires PlainDependency(d)
    ensures Solid(DependencyLine(d, k))
  {
    hide Solid, Quoted, Decimal, KindName;
    var r7 := Quoted(d.interfaceHash) + "";
    var r6 := " interface=" + r7;
    var r5 := Quoted(d.requestedPath) + r6;
    var r4 := " requested=" + r5;
    var r3 := KindName(d.kind) + r4;
    var r2 := " kind=" + r3;
    var r1 := Quoted(d.identity) + r2;
    QuotedSolid("", d.interfaceHash);
    assert "" + Quoted(d.interfaceHash) == r7;
    SolidPrepend(" interface=", r7);
    QuotedSolid("", d.requestedPath);
    SolidPrepend(Quoted(d.requestedPath), r6);
    SolidPrepend(" requested=", r5);
    KindPlain(d.kind);
    SolidPrepend(KindName(d.kind), r4);
    SolidPrepend(" kind=", r3);
    QuotedSolid("", d.identity);
    SolidPrepend(Quoted(d.identity), r2);
    SolidPrepend(" target=", r1);
    DecimalPlain(k);
    SolidPrepend(Decimal(k), DependencyTail(d));
    SolidPrepend("    d", Decimal(k) + DependencyTail(d));
  }

  lemma DecimalPlain(n: nat)
    ensures '\n' !in Decimal(n)
  {
    hide Decimal;
    DecimalDigits(n);
  }

  lemma KindPlain(kind: DependencyKind)
    ensures '\n' !in KindName(kind)
  {
  }

  lemma {:induction false} DependenciesSolid(ds: seq<Dependency>, k: nat)
    requires k <= |ds| && forall i :: 0 <= i < |ds| ==> PlainDependency(ds[i])
    ensures AllSolid(DependencyLines(ds, k))
    decreases |ds| - k
  {
    hide Solid, DependencyLine, PlainDependency;
    if k < |ds| {
      DependencySolid(ds[k], k);
      DependenciesSolid(ds, k + 1);
      SolidOne(DependencyLine(ds[k], k), DependencyLines(ds, k + 1));
    }
  }

  lemma ConstantsSolid(b: bool)
    ensures Solid("  entry = " + BoolName(b)) && Solid("  dependencies:") && Solid("end")
    ensures '\n' !in ORDER_PREFIX && '\n' !in "module "
  {
  }

  lemma RecordSolid(r: Record, index: nat)
    requires Plain(r)
    ensures AllSolid(RecordLines(r, index))
  {
    hide Solid, FieldLines, DependencyLines, BoolName, Decimal, AllSolid;
    var order, ds := OrderLines(r.unit.entryOrder), DependencyLines(r.unit.dependencies, 0);
    ConstantsSolid(r.unit.isEntry);
    Nothing();
    SolidOne("end", []);
    assert ["end"] + [] == ["end"];
    DependenciesSolid(r.unit.dependencies, 0);
    SolidParts(ds, ["end"]);
    SolidOne("  dependencies:", ds + ["end"]);
    if r.unit.entryOrder.Some? {
      DecimalSolid(ORDER_PREFIX, r.unit.entryOrder.value);
      SolidOne(order[0], []);
      assert [order[0]] + [] == order;
    }
    SolidParts(order, ["  dependencies:"] + (ds + ["end"]));
    SolidOne(EntryLine(r), TailLines(r));
    FieldsSolid(r, 0);
    SolidParts(FieldLines(r, 0), [EntryLine(r)] + TailLines(r));
    DecimalSolid("module ", index);
    SolidOne("module " + Decimal(index), FieldLines(r, 0) + ([EntryLine(r)] + TailLines(r)));
  }

  lemma Nothing()
    ensures AllSolid([])
  {
  }

  lemma {:induction false} RecordsSolid(records: seq<Record>, index: nat)
    requires forall k :: 0 <= k < |records| ==> Plain(records[k])
    ensures AllSolid(AllLines(records, index))
    decreases |records|
  {
    hide RecordLines, AllSolid, Plain;
    if records == [] {
      Nothing();
    } else {
      RecordSolid(records[0], index);
      RecordsSolid(records[1..], index + 1);
      SolidParts(RecordLines(records[0], index), AllLines(records[1..], index + 1));
    }
  }

  // ----------------------------------------------------------------------- round trip

  function ManifestText(records: seq<Record>): string {
    Joined(HEADER + AllLines(records, 0))
  }

  function LinesOf(text: string): seq<Line> {
    Numbered(SplitLines(text, ""), 0)
  }

  lemma AllSolidRight(lines: seq<string>)
    requires AllSolid(lines)
    ensures LinesRight(lines) && Filled(lines)
  {
    hide LineRight;
    forall k | 0 <= k < |lines| ensures LineRight(lines[k]) && lines[k] != "" {
      assert Solid(lines[k]);
    }
  }

  lemma HeaderRight()
    ensures LineRight("cdbc-cache 0.2") && LineRight("") && LineRight("schema = 3") && LineRight("modules:")
  {
  }

  lemma LinesWritten(lines: seq<string>)
    requires AllSolid(lines)
    ensures
      var ls := LinesOf(Joined(HEADER + lines));
      && |ls| == 3 + |lines| && Begins(ls[3..], lines)
      && ls[0].text == "cdbc-cache 0.2" && ls[1].text == "schema = 3" && ls[2].text == "modules:"
  {
    hide LineRight, Joined, SplitLines, Begins, Solid, Numbered;
    var all := HEADER + lines;
    AllSolidRight(lines);
    HeaderRight();
    forall k | 0 <= k < |all| ensures LineRight(all[k]) {
      assert k >= 4 ==> all[k] == lines[k - 4];
    }
    SplitJoined(all);
    assert all[4..] == lines;
    NumberedFilled(all, 4);
    HeaderNumbered(lines);
  }

  lemma NumberedFirst(lines: seq<string>, k: nat)
    requires k < |lines|
    ensures
      Numbered(lines, k)
      == if lines[k] == "" then Numbered(lines, k + 1) else [Line(k + 1, lines[k])] + Numbered(lines, k + 1)
  {
  }

  lemma HeaderNumbered(lines: seq<string>)
    ensures
      var all := HEADER + lines;
      Numbered(all, 0) == [Line(1, "cdbc-cache 0.2"), Line(3, "schema = 3"), Line(4, "modules:")] + Numbered(all, 4)
  {
    hide Numbered;
    var all := HEADER + lines;
    NumberedFirst(all, 0);
    NumberedFirst(all, 1);
    NumberedFirst(all, 2);
    NumberedFirst(all, 3);
    var rest := Numbered(all, 4);
    assert Numbered(all, 0) == [Line(1, all[0])] + ([Line(3, all[2])] + ([Line(4, all[3])] + rest));
  }

  lemma SchemaRead()
    ensures SizeField("schema = 3", "schema = ") == Some(3)
  {
    SizeFieldRead("schema = ", 3);
    assert Decimal(3) == "3";
  }

  /** A manifest that was written is read back, key and paths filled in, exactly when its identities
      are unique and not empty, its optimization fields and dependency identities are not empty, its
      paths are relative and normal and its entry flags match the entry orders.
   */
  lemma RoundTrip(records: seq<Record>, env: Environment)
    requires Writable(records, env) && |records| < SIZE_LIMIT && forall k :: 0 <= k < |records| ==> Plain(records[k])
    ensures
      var r := ParseManifest(LinesOf(ManifestText(records)), env);
      && (r == Done(records) <==> AllStorable(records, env) && UniqueIdentities(records))
      && (r.Done? ==> r == Done(records))
  {
    hide AllStorable, UniqueIdentities, ParseRecords, Writable, Plain, SizeField, LinesOf, Joined, Begins;
    var lines := AllLines(records, 0);
    RecordsSolid(records, 0);
    LinesWritten(lines);
    SchemaRead();
    var ls := LinesOf(ManifestText(records));
    assert ls[1..][1..][1..] == ls[3..];
    RecordsRead(ls[3..], records, [], env);
    assert [] + records == records;
  }
}
