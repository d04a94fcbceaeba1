/** The manifest on disk, spelled out line by line.  The theorems about reading and writing hold for
    any wording that both sides share; this is the wording.
 */
module StoredFormats {
  import opened Wrappers
  import opened Decimals
  import opened ModuleCacheKey
  import opened ManifestFields
  import opened ManifestFormat
  import ModuleCachePlanner

  /** A manifest starts with these four lines. */
  lemma ManifestStarts(records: seq<Record>)
    ensures ManifestText(records) == Joined(["cdbc-cache 0.2", "", "schema = 3", "modules:"] + AllLines(records, 0))
  {
  }

  /** The lines of a record that do not repeat. */
  function Fixed(r: Record, index: nat): seq<string> {
    var m := r.unit;
    [ "module " + Decimal(index),
      "  identity = " + Quoted(m.identity),
      "  source = " + Quoted(m.sourceHash),
      "  interface = " + Quoted(m.interfaceHash),
      "  optimization_level = " + Quoted(m.optimizationLevel),
      "  optimizer_pipeline = " + Quoted(m.optimizerPipeline),
      "  key = " + Quoted(m.cacheKey),
      "  artifact = " + Quoted(r.artifactPath),
      "  interface_artifact = " + Quoted(r.interfaceArtifactPath),
      if m.isEntry then "  entry = true" else "  entry = false" ]
  }

  /** The line of the dependency with this index. */
  function Shown(d: Dependency, index: nat): string {
    "    d" + (Decimal(index)
    + (" target=" + (Quoted(d.identity)
    + (" kind=" + ((if d.kind == Import then "import" else "re_export")
    + (" requested=" + (Quoted(d.requestedPath)
    + (" interface=" + Quoted(d.interfaceHash)))))))))
  }

  /** A record is written as these lines, one for each dependency. */
  lemma RecordShown(r: Record, index: nat)
    ensures
      var order, ds := r.unit.entryOrder, r.unit.dependencies;
      RecordLines(r, index) ==
        Fixed(r, index) + (if order.Some? then ["  entry_order = " + Decimal(order.value)] else [])
        + ["  dependencies:"] + seq(|ds|, k requires 0 <= k < |ds| => Shown(ds[k], k)) + ["end"]
  {
    hide Decimal, Quoted, Shown, BoolName;
    var order, ds := r.unit.entryOrder, r.unit.dependencies;
    var shown := seq(|ds|, k requires 0 <= k < |ds| => Shown(ds[k], k));
    FixedLines(r, index);
    DependenciesShown(ds, 0);
    assert DependencyLines(ds, 0) == shown;
    Regroup(
      ["module " + Decimal(index)], FieldLines(r, 0), [EntryLine(r)], OrderLines(order), ["  dependencies:"], shown,
      ["end"]);
  }

  lemma Regroup(
    a: seq<string>, b: seq<string>, c: seq<string>, d: seq<string>, e: seq<string>, f: seq<string>, g: seq<string>
  )
    ensures a + (b + (c + (d + (e + (f + g))))) == (a + b + c) + d + e + f + g
  {
  }

  lemma FixedLines(r: Record, index: nat)
    ensures ["module " + Decimal(index)] + FieldLines(r, 0) + [EntryLine(r)] == Fixed(r, index)
  {
    hide Quoted, Decimal;
    FieldsFromFour(r);
    assert FieldLines(r, 3) == [PREFIXES[3] + Quoted(Values(r)[3])] + FieldLines(r, 4);
    assert FieldLines(r, 2) == [PREFIXES[2] + Quoted(Values(r)[2])] + FieldLines(r, 3);
    assert FieldLines(r, 1) == [PREFIXES[1] + Quoted(Values(r)[1])] + FieldLines(r, 2);
    assert FieldLines(r, 0) == [PREFIXES[0] + Quoted(Values(r)[0])] + FieldLines(r, 1);
    EntryShown(r);
  }

  lemma EntryShown(r: Record)
    ensures EntryLine(r) == if r.unit.isEntry then "  entry = true" else "  entry = false"
  {
  }

  lemma FieldsFromFour(r: Record)
    ensures
      FieldLines(r, 4) == [
        "  optimizer_pipeline = " + Quoted(r.unit.optimizerPipeline), "  key = " + Quoted(r.unit.cacheKey),
        "  artifact = " + Quoted(r.artifactPath), "  interface_artifact = " + Quoted(r.interfaceArtifactPath)]
  {
    hide Quoted;
    assert FieldLines(r, 8) == [];
    assert FieldLines(r, 7) == [PREFIXES[7] + Quoted(Values(r)[7])] + FieldLines(r, 8);
    assert FieldLines(r, 6) == [PREFIXES[6] + Quoted(Values(r)[6])] + FieldLines(r, 7);
    assert FieldLines(r, 5) == [PREFIXES[5] + Quoted(Values(r)[5])] + FieldLines(r, 6);
    assert FieldLines(r, 4) == [PREFIXES[4] + Quoted(Values(r)[4])] + FieldLines(r, 5);
  }

  lemma {:induction false} DependenciesShown(ds: seq<Dependency>, k: nat)
    requires k <= |ds|
    ensures |DependencyLines(ds, k)| == |ds| - k
    ensures forall j :: 0 <= j < |ds| - k ==> DependencyLines(ds, k)[j] == Shown(ds[k + j], k + j)
    decreases |ds| - k
  {
    hide DependencyLine, Shown;
    if k < |ds| {
      var rest, all := DependencyLines(ds, k + 1), DependencyLines(ds, k);
      DependenciesShown(ds, k + 1);
      DependencyShown(ds[k], k);
      assert all == [DependencyLine(ds[k], k)] + rest;
      forall j | 0 <= j < |ds| - k ensures all[j] == Shown(ds[k + j], k + j) {
        if j > 0 {
          assert all[j] == rest[j - 1];
        }
      }
    }
  }

  lemma DependencyShown(d: Dependency, index: nat)
    ensures DependencyLine(d, index) == Shown(d, index)
  {
    hide Decimal, Quoted;
    assert Quoted(d.interfaceHash) + "" == Quoted(d.interfaceHash);
  }

  // --------------------------------------------------------------------------- quoting

  function Mark(c: char): string {
    if c == '"' then "\\\"" else if c == '\\' then "\\\\" else [c]
  }

  lemma EscapedFirst(c: char, rest: string)
    ensures Escaped([c] + rest) == Mark(c) + Escaped(rest)
  {
    assert ([c] + rest)[1..] == rest;
  }

  /** Quoting puts a backslash before quotes and backslashes, changes nothing else, and puts quotes around. */
  lemma {:induction false} QuotedShown(before: string, c: char, after: string)
    ensures Quoted("") == "\"\""
    ensures Quoted(before + [c] + after) == "\"" + Escaped(before) + Mark(c) + Escaped(after) + "\""
  {
    hide Mark;
    EscapedInside(before, c, after);
  }

  lemma {:induction false} EscapedInside(before: string, c: char, after: string)
    ensures Escaped(before + [c] + after) == Escaped(before) + Mark(c) + Escaped(after)
    decreases |before|
  {
    hide Escaped, Mark;
    if before == "" {
      assert before + [c] + after == [c] + after;
      EscapedFirst(c, after);
      EscapedNothing();
    } else {
      var rest := before[1..];
      assert before == [before[0]] + rest;
      assert before + [c] + after == [before[0]] + (rest + [c] + after);
      EscapedFirst(before[0], rest);
      EscapedFirst(before[0], rest + [c] + after);
      EscapedInside(rest, c, after);
    }
  }

  lemma EscapedNothing()
    ensures Escaped("") == ""
  {
  }
}
