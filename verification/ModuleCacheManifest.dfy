/** The manifest of the module cache: its writer and its cursor-driven line reader. */
module ModuleCacheManifest {
  import opened Wrappers
  import opened Decimals
  import opened ModuleCacheKey
  import opened ManifestFields
  import opened ManifestFormat

  // ---------------------------------------------------------------------- the writer

  /** The record with its key and its interface path filled in. */
  function FilledIn(r: Record, env: Environment): Record {
    var unit := if r.unit.cacheKey == "" then r.unit.(cacheKey := KeyOf(r.unit, env)) else r.unit;
    var path := if r.interfaceArtifactPath == "" then env.interfacePath(unit.identity) else r.interfaceArtifactPath;
    r.(unit := unit, interfaceArtifactPath := path)
  }

  function AllFilledIn(records: seq<Record>, env: Environment): (r: seq<Record>)
    ensures |r| == |records| && forall k :: 0 <= k < |records| ==> r[k] == FilledIn(records[k], env)
  {
    seq(|records|, k requires 0 <= k < |records| => FilledIn(records[k], env))
  }

  lemma JoinedFirst(line: string, lines: seq<string>)
    ensures Joined([line] + lines) == line + "\n" + Joined(lines)
  {
    assert ([line] + lines)[1..] == lines;
    assert line + (['\n'] + Joined(lines)) == line + "\n" + Joined(lines);
  }

  method WriteFields(r: Record) returns (text: string)
    ensures text == Joined(FieldLines(r, 0))
  {
    hide Joined, Quoted, Values;
    text := "";
    for k := 0 to |PREFIXES|
      invariant text + Joined(FieldLines(r, k)) == Joined(FieldLines(r, 0))
    {
      var line := PREFIXES[k] + Quoted(Values(r)[k]);
      JoinedFirst(line, FieldLines(r, k + 1));
      text := text + (line + "\n");
    }
    NothingJoined();
  }

  lemma NothingJoined()
    ensures Joined([]) == ""
  {
  }

  method WriteDependencies(ds: seq<Dependency>) returns (text: string)
    ensures text == Joined(DependencyLines(ds, 0))
  {
    hide Joined, DependencyLine;
    text := "";
    for k := 0 to |ds|
      invariant text + Joined(DependencyLines(ds, k)) == Joined(DependencyLines(ds, 0))
    {
      JoinedFirst(DependencyLine(ds[k], k), DependencyLines(ds, k + 1));
      text := text + (DependencyLine(ds[k], k) + "\n");
    }
    NothingJoined();
  }

  method WriteTail(r: Record) returns (text: string)
    ensures text == Joined(TailLines(r))
  {
    hide Joined, DependencyLines, Decimal;
    text := "";
    if r.unit.entryOrder.Some? {
      text := ORDER_PREFIX + Decimal(r.unit.entryOrder.value) + "\n";
      JoinedFirst(ORDER_PREFIX + Decimal(r.unit.entryOrder.value), []);
      assert [ORDER_PREFIX + Decimal(r.unit.entryOrder.value)] + [] == OrderLines(r.unit.entryOrder);
    }
    NothingJoined();
    var dependencies := WriteDependencies(r.unit.dependencies);
    var ds := DependencyLines(r.unit.dependencies, 0);
    text := text + ("  dependencies:" + "\n" + (dependencies + ("end" + "\n" + "")));
    JoinedFirst("end", []);
    assert ["end"] + [] == ["end"];
    JoinedParts(ds, ["end"]);
    JoinedFirst("  dependencies:", ds + ["end"]);
    JoinedParts(OrderLines(r.unit.entryOrder), ["  dependencies:"] + (ds + ["end"]));
  }

  method WriteRecord(r: Record, index: nat) returns (text: string)
    ensures text == Joined(RecordLines(r, index))
  {
    hide Joined, FieldLines, TailLines, Decimal, BoolName;
    var fields := WriteFields(r);
    var tail := WriteTail(r);
    text := "module " + Decimal(index) + "\n" + (fields + ("  entry = " + BoolName(r.unit.isEntry) + "\n" + tail));
    JoinedFirst(EntryLine(r), TailLines(r));
    JoinedParts(FieldLines(r, 0), [EntryLine(r)] + TailLines(r));
    JoinedFirst("module " + Decimal(index), FieldLines(r, 0) + ([EntryLine(r)] + TailLines(r)));
  }

  /** Fails exactly for another schema version or a record with a wrong key or path. */
  method WriteModuleCache(schemaVersion: int, records: seq<Record>, env: Environment) returns (ok: bool, text: string)
    ensures ok == (schemaVersion == 3 && forall k :: 0 <= k < |records| ==> Consistent(FilledIn(records[k], env), env))
    ensures ok ==> text == ManifestText(AllFilledIn(records, env))
  {
    hide Joined, RecordLines, Consistent, FilledIn;
    text := "";
    if schemaVersion != 3 {
      return false, text;
    }
    var filled := AllFilledIn(records, env);
    text := "cdbc-cache 0.2\n\nschema = 3\nmodules:\n";
    HeaderJoined();
    JoinedParts(HEADER, AllLines(filled, 0));
    assert filled[0..] == filled;
    for index := 0 to |records|
      invariant forall k :: 0 <= k < index ==> Consistent(FilledIn(records[k], env), env)
      invariant text + Joined(AllLines(filled[index..], index)) == ManifestText(filled)
    {
      var record := filled[index];
      if !Consistent(record, env) {
        return false, text;
      }
      var written := WriteRecord(record, index);
      assert filled[index..][0] == record && filled[index..][1..] == filled[index + 1..];
      JoinedParts(RecordLines(record, index), AllLines(filled[index + 1..], index + 1));
      text := text + written;
    }
    NothingJoined();
    return true, text;
  }

  lemma HeaderJoined()
    ensures Joined(HEADER) == "cdbc-cache 0.2\n\nschema = 3\nmodules:\n"
  {
    hide Joined;
    NothingJoined();
    JoinedFirst("modules:", []);
    JoinedFirst("schema = 3", ["modules:"]);
    JoinedFirst("", ["schema = 3", "modules:"]);
    JoinedFirst("cdbc-cache 0.2", ["", "schema = 3", "modules:"]);
    assert ["modules:"] + [] == ["modules:"];
    assert ["schema = 3"] + ["modules:"] == ["schema = 3", "modules:"];
    assert [""] + ["schema = 3", "modules:"] == ["", "schema = 3", "modules:"];
    assert ["cdbc-cache 0.2"] + ["", "schema = 3", "modules:"] == HEADER;
  }

  // ---------------------------------------------------------------------- the reader

  /** Walks over the lines of a file, leaving out the empty ones. */
  class LineReader {
    const lines: seq<string>
    var cursor: nat

    constructor (lines: seq<string>)
      ensures Valid() && Rest() == Numbered(lines, 0)
    {
      this.lines, cursor := lines, 0;
    }

    predicate Valid()
      reads this
    {
      cursor <= |lines|
    }

    function Rest(): seq<Line>
      requires Valid()
      reads this
    {
      Numbered(lines, cursor)
    }

    method NextNonEmpty() returns (line: Option<Line>)
      requires Valid()
      modifies this
      ensures Valid()
      ensures
        if old(Rest()) == [] then line == None && Rest() == []
        else line == Some(old(Rest())[0]) && Rest() == old(Rest())[1..]
      ensures line.Some? ==> 0 < cursor == line.value.number && lines[cursor - 1] == line.value.text != ""
    {
      hide Numbered;
      while cursor < |lines| && lines[cursor] == ""
        invariant Valid() && Rest() == old(Rest())
      {
        NumberedFirst(lines, cursor);
        cursor := cursor + 1;
      }
      if cursor == |lines| {
        NothingNumbered(lines);
        return None;
      }
      NumberedFirst(lines, cursor);
      line := Some(Line(cursor + 1, lines[cursor]));
      cursor := cursor + 1;
    }

    /** Puts the line just read back. */
    method StepBack()
      requires Valid() && 0 < cursor && lines[cursor - 1] != ""
      modifies this
      ensures Valid() && Rest() == [Line(old(cursor), lines[old(cursor) - 1])] + old(Rest())
    {
      hide Numbered;
      NumberedFirst(lines, cursor - 1);
      cursor := cursor - 1;
    }

    method ReadFields() returns (r: Option<Record>, first: Option<Line>)
      requires Valid()
      modifies this
      ensures Valid() && r == ParseFields(old(Rest()))
      ensures first == if old(Rest()) == [] then None else Some(old(Rest())[0])
      ensures r.Some? ==> Rest() == old(Rest())[|PREFIXES| + 1..]
    {
      hide Numbered, QuotedField, BooleanField;
      ghost var ls := Rest();
      var texts: seq<Line>, complete := [], true;
      for k := 0 to |PREFIXES| + 1
        invariant Valid() && complete == (|ls| >= k)
        invariant
          if complete then |texts| == k && texts == ls[..k] && Rest() == ls[k..]
          else texts == ls && Rest() == []
      {
        var line := NextNonEmpty();
        if line.Some? {
          texts := texts + [line.value];
        } else {
          complete := false;
        }
      }
      first := if texts == [] then None else Some(texts[0]);
      if !complete {
        return None, first;
      }
      r := ReadValues(texts);
      SameFields(texts, ls, 0);
    }

    method ReadEntryOrder() returns (r: Outcome<Option<nat>>)
      requires Valid()
      modifies this
      ensures Valid() && r == ParseEntryOrder(old(Rest())).0
      ensures r.Done? ==> Rest() == ParseEntryOrder(old(Rest())).1
    {
      hide Numbered, SizeField;
      var line := NextNonEmpty();
      if line.Some? && ORDER_PREFIX <= line.value.text {
        var order := SizeField(line.value.text, ORDER_PREFIX);
        if order.None? {
          return Failed(line.value.number, "invalid entry order");
        }
        return Done(Some(order.value));
      }
      if line.Some? {
        StepBack();
      }
      return Done(None);
    }

    method ReadDependencies(header: nat) returns (r: Outcome<seq<Dependency>>)
      requires Valid()
      modifies this
      ensures Valid() && r == ParseDependencies(old(Rest()), [], header).0
      ensures r.Done? ==> Rest() == ParseDependencies(old(Rest()), [], header).1
    {
      hide Numbered, DependencyOf;
      var ds: seq<Dependency> := [];
      while true
        invariant Valid() && ParseDependencies(Rest(), ds, header) == ParseDependencies(old(Rest()), [], header)
        decreases |Rest()|
      {
        var line := NextNonEmpty();
        if line.None? {
          return Failed(header, "unterminated module record");
        }
        if line.value.text == "end" {
          return Done(ds);
        }
        var dependency := ParseDependencyLine(line.value.text, |ds|);
        if dependency.None? || dependency.value.identity == "" {
          return Failed(line.value.number, "invalid dependency record");
        }
        ds := ds + [dependency.value];
      }
    }

    method ReadTail(fields: Record, header: nat, env: Environment) returns (r: Outcome<Record>)
      requires Valid()
      modifies this
      ensures Valid() && r == ParseTail(old(Rest()), fields, header, env).0
      ensures r.Done? ==> Rest() == ParseTail(old(Rest()), fields, header, env).1
    {
      hide Numbered, ParseEntryOrder, ParseDependencies, Consistent;
      var order := ReadEntryOrder();
      if order.Failed? {
        return Failed(order.line, order.message);
      }
      if fields.unit.isEntry != order.value.Some? {
        return Failed(header, "entry order must match entry flag");
      }
      var line := NextNonEmpty();
      if line.None? || line.value.text != "  dependencies:" {
        return Failed(if line.None? then header else line.value.number, "expected dependencies:");
      }
      var ds := ReadDependencies(header);
      if ds.Failed? {
        return Failed(ds.line, ds.message);
      }
      var record := Completed(fields, order.value, ds.value);
      if !Consistent(record, env) {
        return Failed(header, "artifact path does not match module key");
      }
      return Done(record);
    }

    /** One record behind its header line. */
    method ReadRecord(header: Line, index: nat, env: Environment) returns (r: Outcome<Record>)
      requires Valid()
      modifies this
      ensures Valid() && r == ParseRecord([header] + old(Rest()), index, env).0
      ensures r.Done? ==> Rest() == ParseRecord([header] + old(Rest()), index, env).1
    {
      hide Numbered, ParseFields, ParseTail, SizeField, FieldsRight;
      ghost var ls := [header] + Rest();
      assert ls[1..] == Rest();
      if !("module " <= header.text) {
        return Failed(header.number, "expected module record");
      }
      if SizeField(header.text, "module ") != Some(index) {
        return Failed(header.number, "module records must be ordered from zero");
      }
      var fields, first := ReadFields();
      if fields.None? {
        return Failed(if first.None? then header.number else first.value.number, "invalid module fields");
      }
      if !FieldsRight(fields.value, env) {
        return Failed(header.number, "invalid module identity, key, or artifact path");
      }
      assert ls[1..][|PREFIXES| + 1..] == ls[|PREFIXES| + 2..];
      r := ReadTail(fields.value, header.number, env);
    }

    method ReadRecords(env: Environment) returns (r: Outcome<seq<Record>>)
      requires Valid()
      modifies this
      ensures r == ParseRecords(old(Rest()), [], env)
    {
      hide Numbered, ParseRecord, UniqueIdentities;
      var records: seq<Record> := [];
      while true
        invariant Valid() && ParseRecords(Rest(), records, env) == ParseRecords(old(Rest()), [], env)
        decreases |Rest()|
      {
        ghost var ls := Rest();
        var header := NextNonEmpty();
        if header.None? {
          break;
        }
        assert [header.value] + Rest() == ls;
        var record := ReadRecord(header.value, |records|, env);
        if record.Failed? {
          return Failed(record.line, record.message);
        }
        records := records + [record.value];
      }
      var unique := HasUniqueIdentities(records);
      r := if unique then Done(records) else Failed(1, "duplicate module identity");
    }
  }

  method HasUniqueIdentities(records: seq<Record>) returns (unique: bool)
    ensures unique == UniqueIdentities(records)
  {
    var identities: set<string> := {};
    for k := 0 to |records|
      invariant identities == set j | 0 <= j < k :: records[j].unit.identity
      invariant UniqueIdentities(records[..k])
    {
      if records[k].unit.identity in identities {
        return false;
      }
      identities := identities + {records[k].unit.identity};
    }
    assert records[..|records|] == records;
    return true;
  }

  // ------------------------------------------------- the cursor over a dependency line

  method IndexAt(line: string) returns (index: nat, next: Option<nat>)
    ensures
      match ReadIndex(line)
      case Some(p) => next.Some? && next.value <= |line| && index == p.0 && line[next.value..] == p.1
      case None => next.None?
  {
    hide SpaceAt, Size;
    index, next := 0, None;
    if !("    d" <= line) {
      return;
    }
    var indexEnd := SpaceAt(line[5..]);
    if indexEnd.None? {
      return;
    }
    var size := Size(line[5..][..indexEnd.value]);
    if size.Some? {
      return size.value, Some(5 + indexEnd.value);
    }
  }

  method QuotedAt(line: string, cursor: nat, name: string) returns (value: string, next: Option<nat>)
    requires cursor <= |line|
    ensures
      var rest := Consume(line[cursor..], name);
      match if rest.Some? then ReadQuoted(rest.value) else None
      case Some(p) => next.Some? && next.value <= |line| && value == p.0 && line[next.value..] == p.1
      case None => next.None?
  {
    hide Unescape;
    value, next := "", None;
    if !(name <= line[cursor..]) {
      return;
    }
    var quote := cursor + |name|;
    assert line[cursor..][|name|..] == line[quote..];
    if quote >= |line| || line[quote] != '"' {
      return;
    }
    assert line[quote..][1..] == line[quote + 1..];
    var read := Unescape(line[quote + 1..]);
    if read.Some? {
      UnescapedRest(line[quote + 1..]);
      return read.value.0, Some(|line| - |read.value.1|);
    }
  }

  method KindAt(line: string, cursor: nat, name: string) returns (kind: DependencyKind, next: Option<nat>)
    requires cursor <= |line|
    ensures
      var rest := Consume(line[cursor..], name);
      match if rest.Some? then ReadKind(rest.value) else None
      case Some(p) => next.Some? && next.value <= |line| && kind == p.0 && line[next.value..] == p.1
      case None => next.None?
  {
    hide SpaceAt;
    kind, next := Import, None;
    if !(name <= line[cursor..]) {
      return;
    }
    var start := cursor + |name|;
    assert line[cursor..][|name|..] == line[start..];
    var kindEnd := SpaceAt(line[start..]);
    if kindEnd.None? {
      return;
    }
    var named := KindOf(line[start..][..kindEnd.value]);
    if named.Some? {
      assert line[start..][kindEnd.value..] == line[start + kindEnd.value..];
      return named.value, Some(start + kindEnd.value);
    }
  }

  method ParseDependencyLine(line: string, expectedIndex: nat) returns (r: Option<Dependency>)
    ensures r == DependencyOf(line, expectedIndex)
  {
    hide ReadIndex, ReadQuoted, ReadKind, Consume;
    var index, cursor := IndexAt(line);
    if cursor.None? || index != expectedIndex {
      return None;
    }
    var identity, kind, requestedPath, interfaceHash;
    identity, cursor := QuotedAt(line, cursor.value, " target=");
    if cursor.None? {
      return None;
    }
    kind, cursor := KindAt(line, cursor.value, " kind=");
    if cursor.None? {
      return None;
    }
    requestedPath, cursor := QuotedAt(line, cursor.value, " requested=");
    if cursor.None? {
      return None;
    }
    interfaceHash, cursor := QuotedAt(line, cursor.value, " interface=");
    if cursor.None? || cursor.value != |line| {
      return None;
    }
    return Some(Dependency(identity, kind, requestedPath, interfaceHash));
  }

  /** Reads the whole manifest. */
  method ReadModuleCache(text: string, env: Environment) returns (r: Outcome<seq<Record>>)
    ensures r == ParseManifest(LinesOf(text), env)
    ensures r.Done? ==> Accepted(r.value, env) && UniqueIdentities(r.value)
  {
    hide Numbered, SplitLines, ParseRecords, SizeField, Accepted, UniqueIdentities;
    var lines := ReadLines(text);
    var reader := new LineReader(lines);
    var header := reader.NextNonEmpty();
    if header.None? || header.value.text != "cdbc-cache 0.2" {
      return Failed(if header.None? then 1 else header.value.number, "expected cdbc-cache 0.2");
    }
    var schema := reader.NextNonEmpty();
    if schema.None? || SizeField(schema.value.text, "schema = ") != Some(3) {
      return Failed(if schema.None? then 1 else schema.value.number, "expected schema = 3");
    }
    var modulesHeader := reader.NextNonEmpty();
    if modulesHeader.None? || modulesHeader.value.text != "modules:" {
      return Failed(if modulesHeader.None? then 1 else modulesHeader.value.number, "expected modules:");
    }
    NothingAccepted(env);
    if ParseRecords(reader.Rest(), [], env).Done? {
      ReadAccepted(reader.Rest(), [], env);
    }
    r := reader.ReadRecords(env);
  }

  lemma NothingAccepted(env: Environment)
    ensures Accepted([], env)
  {
  }

  /** What was written and is storable comes back with its keys and paths filled in. */
  method StoreAndLoad(records: seq<Record>, env: Environment) returns (written: bool, r: Outcome<seq<Record>>)
    requires |records| < SIZE_LIMIT
    requires forall k :: 0 <= k < |records| ==> Fits(records[k]) && Plain(FilledIn(records[k], env))
    ensures written == forall k :: 0 <= k < |records| ==> Consistent(FilledIn(records[k], env), env)
    ensures
      var filled := AllFilledIn(records, env);
      written
      ==> && (r == Done(filled) <==> AllStorable(filled, env) && UniqueIdentities(filled))
          && (r.Done? ==> r == Done(filled))
  {
    hide Plain, Consistent, ManifestText, LinesOf, ParseManifest, AllStorable, UniqueIdentities;
    var text;
    written, text := WriteModuleCache(3, records, env);
    r := ReadModuleCache(text, env);
    if written {
      RoundTrip(AllFilledIn(records, env), env);
    }
  }

  lemma {:induction false} SameFields(a: seq<Line>, b: seq<Line>, k: nat)
    requires k <= |PREFIXES| < |a| <= |b| && a == b[..|a|]
    ensures FieldsFrom(a, k) == FieldsFrom(b, k)
    decreases |PREFIXES| - k
  {
    hide QuotedField;
    if k < |PREFIXES| {
      SameFields(a, b, k + 1);
      assert a[k] == b[k];
    }
  }

  lemma NothingNumbered(lines: seq<string>)
    ensures Numbered(lines, |lines|) == []
  {
  }

  function Behind(values: seq<string>, rest: Option<seq<string>>): Option<seq<string>> {
    match rest case Some(more) => Some(values + more) case None => None
  }

  lemma NothingBehind(rest: Option<seq<string>>)
    ensures Behind([], rest) == rest
  {
    if rest.Some? {
      assert [] + rest.value == rest.value;
    }
  }

  lemma BehindAll(values: seq<string>)
    ensures Behind(values, Some([])) == Some(values)
  {
    assert values + [] == values;
  }

  lemma BehindMore(values: seq<string>, value: string, rest: Option<seq<string>>)
    ensures
      Behind(values, match rest case Some(more) => Some([value] + more) case None => None)
      == Behind(values + [value], rest)
  {
    if rest.Some? {
      assert values + ([value] + rest.value) == values + [value] + rest.value;
    }
  }

  /** The fields of nine lines. */
  method ReadValues(ls: seq<Line>) returns (r: Option<Record>)
    requires |ls| == |PREFIXES| + 1
    ensures r == ParseFields(ls)
  {
    hide QuotedField, BooleanField;
    var values := [];
    NothingBehind(FieldsFrom(ls, 0));
    for k := 0 to |PREFIXES|
      invariant |values| == k
      invariant FieldsFrom(ls, 0) == Behind(values, FieldsFrom(ls, k))
    {
      var value := QuotedField(ls[k].text, PREFIXES[k]);
      if value.None? {
        return None;
      }
      BehindMore(values, value.value, FieldsFrom(ls, k + 1));
      values := values + [value.value];
    }
    BehindAll(values);
    var isEntry := BooleanField(ls[|PREFIXES|].text, "  entry = ");
    if isEntry.None? {
      return None;
    }
    return Some(RecordOf(values, isEntry.value));
  }
}
