/** The import loader: a depth-first walk with a loading stack, proved to be a topological sort
    of everything the input files reach.
 */
module ImportLoader {
  import opened Wrappers
  import opened Digraphs

  datatype EdgeKind = Import | ReExport

  /** An import or re-export with its target resolved to a canonical path. */
  datatype ImportItem = ImportItem(target: string, kind: EdgeKind)

  /** A readable file: one that does not parse, or one with its imports in source order. */
  datatype File = Broken | Parsed(imports: seq<ImportItem>)

  type Files = map<string, File>

  datatype ParsedUnit = ParsedUnit(id: nat, canonicalPath: string, resolved: seq<nat>, isEntry: bool)

  datatype ModuleEdge = ModuleEdge(from: nat, to: nat, kind: EdgeKind)

  datatype Failure = ImportCycle(trail: seq<string>) | OpenFailed(path: string) | ParseFailed(path: string)

  predicate Readable(files: Files, p: string) {
    p in files && files[p].Parsed?
  }

  function TargetsOf(items: seq<ImportItem>): (r: seq<string>)
    ensures |r| == |items| && forall k :: 0 <= k < |items| ==> r[k] == items[k].target
  {
    seq(|items|, k requires 0 <= k < |items| => items[k].target)
  }

  /** The imports of every file that parses. */
  function Imports(files: Files): Digraph {
    map p | p in files && files[p].Parsed? :: TargetsOf(files[p].imports)
  }

  lemma ImportsAre(files: Files, p: string)
    ensures p in Imports(files) <==> Readable(files, p)
    ensures Readable(files, p) ==> Imports(files)[p] == TargetsOf(files[p].imports)
  {
  }

  /** `p` is an input or imported, at any distance, by one. */
  ghost predicate Rooted(files: Files, roots: seq<string>, p: string) {
    exists r :: r in roots && Reaches(Imports(files), r, p)
  }

  function Paths(units: seq<ParsedUnit>): (r: seq<string>)
    ensures |r| == |units| && forall i :: 0 <= i < |units| ==> r[i] == units[i].canonicalPath
  {
    seq(|units|, i requires 0 <= i < |units| => units[i].canonicalPath)
  }

  /** A unit sits at its own id and its imports are the ids of earlier units with the right paths. */
  predicate UnitRight(files: Files, units: seq<ParsedUnit>, i: nat)
    requires i < |units|
  {
    var u := units[i];
    && u.id == i && Readable(files, u.canonicalPath)
    && |u.resolved| == |files[u.canonicalPath].imports|
    && forall k :: 0 <= k < |u.resolved| ==>
         u.resolved[k] < i && units[u.resolved[k]].canonicalPath == files[u.canonicalPath].imports[k].target
  }

  /** The index of loaded units is exact: no path is loaded twice. */
  predicate IndexRight(units: seq<ParsedUnit>, index: map<string, nat>) {
    && (forall p :: p in index ==> index[p] < |units| && units[index[p]].canonicalPath == p)
    && (forall i :: 0 <= i < |units| ==> units[i].canonicalPath in index && index[units[i].canonicalPath] == i)
  }

  ghost predicate Consistent(
    files: Files, roots: seq<string>, units: seq<ParsedUnit>, index: map<string, nat>, stack: seq<string>
  ) {
    && (forall i :: 0 <= i < |units| ==> UnitRight(files, units, i))
    && IndexRight(units, index)
    && (forall p :: p in index ==> Rooted(files, roots, p))
    && (forall p :: p in stack ==> p !in index && Readable(files, p))
  }

  lemma Loaded(files: Files, roots: seq<string>, units: seq<ParsedUnit>, index: map<string, nat>, stack: seq<string>, p: string)
    requires Consistent(files, roots, units, index, stack) && p in index
    ensures index[p] < |units| && units[index[p]].canonicalPath == p && Readable(files, p) && p !in stack
  {
    hide Rooted;
    assert UnitRight(files, units, index[p]);
  }

  lemma Pushed(files: Files, roots: seq<string>, units: seq<ParsedUnit>, index: map<string, nat>, stack: seq<string>, p: string)
    requires Consistent(files, roots, units, index, stack) && p !in index && Readable(files, p)
    ensures Consistent(files, roots, units, index, stack + [p])
  {
    hide Rooted, UnitRight, IndexRight;
  }

  /** The unit of the file on top of the stack is complete. */
  lemma Popped(
    files: Files, roots: seq<string>, units: seq<ParsedUnit>, index: map<string, nat>, stack: seq<string>, p: string,
    resolved: seq<nat>, isEntry: bool
  )
    requires Consistent(files, roots, units, index, stack + [p]) && p !in stack && Readable(files, p) && Rooted(files, roots, p)
    requires ResolvedRight(files[p].imports, units, resolved) && |resolved| == |files[p].imports|
    ensures
      Consistent(files, roots, units + [ParsedUnit(|units|, p, resolved, isEntry)], index[p := |units|], stack)
  {
    hide Rooted;
    var more, after := units + [ParsedUnit(|units|, p, resolved, isEntry)], index[p := |units|];
    assert p in stack + [p];
    forall i | 0 <= i < |more| ensures UnitRight(files, more, i) {
      if i < |units| {
        assert UnitRight(files, units, i);
      }
    }
    forall q | q in stack ensures q !in after && Readable(files, q) {
      assert q in stack + [p];
    }
  }

  /** The first imports of a file lead to loaded units. */
  predicate ResolvedRight(items: seq<ImportItem>, units: seq<ParsedUnit>, resolved: seq<nat>) {
    && |resolved| <= |items|
    && forall k :: 0 <= k < |resolved| ==> resolved[k] < |units| && units[resolved[k]].canonicalPath == items[k].target
  }

  lemma ResolvedMore(items: seq<ImportItem>, units: seq<ParsedUnit>, more: seq<ParsedUnit>, resolved: seq<nat>, id: nat)
    requires ResolvedRight(items, units, resolved) && Paths(units) <= Paths(more) && |resolved| < |items|
    requires id < |more| && more[id].canonicalPath == items[|resolved|].target
    ensures ResolvedRight(items, more, resolved + [id])
  {
    forall k | 0 <= k < |resolved| ensures resolved[k] < |more| && more[resolved[k]].canonicalPath == items[k].target {
      assert Paths(units)[resolved[k]] == Paths(more)[resolved[k]];
    }
  }

  /** The paths of the units are a postorder of the import graph. */
  lemma UnitsPostorder(files: Files, units: seq<ParsedUnit>)
    requires forall i :: 0 <= i < |units| ==> UnitRight(files, units, i)
    ensures Postorder(Imports(files), Paths(units))
  {
    var g, order := Imports(files), Paths(units);
    forall i | 0 <= i < |order| ensures order[i] in g && forall t :: t in g[order[i]] ==> t in order[..i] {
      assert UnitRight(files, units, i);
      ImportsAre(files, order[i]);
      forall t | t in g[order[i]] ensures t in order[..i] {
        var k :| 0 <= k < |g[order[i]]| && g[order[i]][k] == t;
        assert order[..i][units[i].resolved[k]] == t;
      }
    }
  }

  function Started(stack: seq<string>, index: map<string, nat>): set<string> {
    (set p | p in stack) + index.Keys
  }

  lemma Fewer(all: set<string>, stack: seq<string>, index: map<string, nat>, p: string)
    requires p in all && p !in stack && p !in index
    ensures |all - Started(stack + [p], index)| < |all - Started(stack, index)|
  {
    var a, b := all - Started(stack + [p], index), all - Started(stack, index);
    forall q | q in a ensures q in b {
      assert q in stack ==> q in stack + [p];
    }
    assert p in stack + [p];
    assert p in b && p !in a;
    Smaller(a, b, p);
  }

  lemma Smaller(a: set<string>, b: set<string>, p: string)
    requires a <= b && p in b && p !in a
    ensures |a| < |b|
  {
    assert b == a + (b - a);
    assert p in b - a;
  }

  lemma FewerStill(all: set<string>, stack: seq<string>, index: map<string, nat>, more: map<string, nat>)
    requires index.Keys <= more.Keys
    ensures |all - Started(stack, more)| <= |all - Started(stack, index)|
  {
    var a, b := all - Started(stack, more), all - Started(stack, index);
    assert a <= b;
    assert b == a + (b - a);
  }

  // ----------------------------------------------------------------- entry flags

  /** Setting the entry flag of `id`, if asked, is the only change to the units there were. */
  predicate FlagsRight(before: seq<ParsedUnit>, after: seq<ParsedUnit>, id: nat, isEntry: bool) {
    && |before| <= |after|
    && (forall i :: 0 <= i < |before| ==> after[i] == before[i].(isEntry := before[i].isEntry || (isEntry && i == id)))
    && (forall i :: |before| <= i < |after| ==> after[i].isEntry == (isEntry && i == id))
  }

  predicate NoEntry(units: seq<ParsedUnit>, from: nat) {
    forall i :: from <= i < |units| ==> !units[i].isEntry
  }

  function Flag(units: seq<ParsedUnit>, id: nat, isEntry: bool): seq<ParsedUnit>
    requires id < |units|
  {
    if isEntry then units[id := units[id].(isEntry := true)] else units
  }

  lemma Flagged(
    files: Files, roots: seq<string>, units: seq<ParsedUnit>, index: map<string, nat>, stack: seq<string>, id: nat, isEntry: bool
  )
    requires Consistent(files, roots, units, index, stack) && id < |units|
    ensures Consistent(files, roots, Flag(units, id, isEntry), index, stack)
    ensures FlagsRight(units, Flag(units, id, isEntry), id, isEntry)
    ensures Flag(units, id, isEntry)[id].canonicalPath == units[id].canonicalPath
  {
    hide Rooted;
    var after := Flag(units, id, isEntry);
    forall i | 0 <= i < |after| ensures UnitRight(files, after, i) {
      assert UnitRight(files, units, i);
    }
  }

  lemma NothingFlagged(before: seq<ParsedUnit>, after: seq<ParsedUnit>, id: nat, from: nat)
    requires FlagsRight(before, after, id, false) && NoEntry(before, from)
    ensures before <= after && NoEntry(after, from)
    ensures Paths(before) <= Paths(after)
  {
  }

  lemma Appended(first: seq<ParsedUnit>, units: seq<ParsedUnit>, unit: ParsedUnit)
    requires first <= units && NoEntry(units, |first|)
    ensures FlagsRight(first, units + [unit], |units|, unit.isEntry)
  {
  }

  // ------------------------------------------------------------------ the session

  class FrontendSession {
    const files: Files
    ghost const roots: seq<string>
    var loadingStack: seq<string>
    var units: seq<ParsedUnit>
    var canonicalToUnitId: map<string, nat>

    constructor (files: Files, ghost roots: seq<string>)
      ensures this.files == files && this.roots == roots && loadingStack == [] && units == [] && Valid()
    {
      this.files := files;
      this.roots := roots;
      loadingStack := [];
      units := [];
      canonicalToUnitId := map[];
    }

    ghost predicate Valid()
      reads this
    {
      Consistent(files, roots, units, canonicalToUnitId, loadingStack)
    }

    /** Loads a file after everything it imports, unless it is loaded already. */
    method LoadFile(path: string, isEntry: bool) returns (failure: Option<Failure>, id: nat)
      requires Valid() && Called(files, roots, loadingStack, path)
      modifies this
      ensures loadingStack == old(loadingStack)
      ensures failure == None ==> Valid() && id < |units| && units[id].canonicalPath == path
      ensures failure == None ==> FlagsRight(old(units), units, id, isEntry)
      ensures failure == None ==> old(canonicalToUnitId.Keys) <= canonicalToUnitId.Keys
      ensures failure.Some? ==> FailureRight(files, roots, failure.value)
      decreases |files.Keys - Started(loadingStack, canonicalToUnitId)|
    {
      hide Consistent, Rooted, Called, FailureRight, ResolvedRight, FlagsRight, Imports, Started, Paths, Walk, NoEntry;
      id := 0;
      if path in loadingStack {
        var trail := DisplayCycle(path);
        return Some(ImportCycle(trail)), 0;
      }
      if path in canonicalToUnitId {
        Loaded(files, roots, units, canonicalToUnitId, loadingStack, path);
        id := canonicalToUnitId[path];
        Flagged(files, roots, units, canonicalToUnitId, loadingStack, id, isEntry);
        if isEntry {
          units := units[id := units[id].(isEntry := true)];
        }
        return None, id;
      }
      if path !in files {
        NotThere(files, roots, loadingStack, path);
        return Some(OpenFailed(path)), 0;
      }
      loadingStack := loadingStack + [path];
      if files[path].Broken? {
        NotParsed(files, roots, old(loadingStack), path);
        loadingStack := loadingStack[..|loadingStack| - 1];
        return Some(ParseFailed(path)), 0;
      }
      ghost var stack, first := old(loadingStack), units;
      Pushed(files, roots, units, canonicalToUnitId, stack, path);
      Fewer(files.Keys, stack, canonicalToUnitId, path);
      var items := files[path].imports;
      var resolved: seq<nat> := [];
      NoneResolved(items, units);
      for k := 0 to |items|
        invariant Valid() && loadingStack == stack + [path] && |resolved| == k && ResolvedRight(items, units, resolved)
        invariant first <= units && NoEntry(units, |first|) && old(canonicalToUnitId.Keys) <= canonicalToUnitId.Keys
      {
        CalledDeeper(files, roots, stack, path, k);
        FewerStill(files.Keys, loadingStack, old(canonicalToUnitId), canonicalToUnitId);
        ghost var before := units;
        var target;
        failure, target := LoadFile(items[k].target, false);
        if failure.Some? {
          loadingStack := loadingStack[..|loadingStack| - 1];
          return failure, 0;
        }
        NothingFlagged(before, units, target, |first|);
        ResolvedMore(items, before, units, resolved, target);
        resolved := resolved + [target];
      }
      CalledRooted(files, roots, stack, path);
      var unit := ParsedUnit(|units|, path, resolved, isEntry);
      Popped(files, roots, units, canonicalToUnitId, stack, path, resolved, isEntry);
      Appended(first, units, unit);
      id := unit.id;
      units := units + [unit];
      canonicalToUnitId := canonicalToUnitId[path := unit.id];
      loadingStack := loadingStack[..|loadingStack| - 1];
      return None, id;
    }

    /** The cycle that loading `path` again would close, as the error shows it. */
    method DisplayCycle(path: string) returns (trail: seq<string>)
      requires Called(files, roots, loadingStack, path) && path in loadingStack
      ensures FailureRight(files, roots, ImportCycle(trail))
    {
      var found := 0;
      while loadingStack[found] != path
        invariant found < |loadingStack| && path in loadingStack[found..]
        decreases |loadingStack| - found
      {
        found := found + 1;
      }
      trail := loadingStack[found..] + [path];
      WalkTail(Imports(files), loadingStack, found);
      WalkLast(Imports(files), loadingStack[found..], path);
    }
  }

  /** `path` is rooted, and imported by the file on top of the stack if there is one. */
  ghost predicate Called(files: Files, roots: seq<string>, stack: seq<string>, path: string) {
    && Rooted(files, roots, path)
    && (stack != [] ==> Walk(Imports(files), stack) && Link(Imports(files), stack[|stack| - 1], path))
  }

  lemma CalledRooted(files: Files, roots: seq<string>, stack: seq<string>, path: string)
    requires Called(files, roots, stack, path)
    ensures Rooted(files, roots, path)
  {
    hide Rooted, Walk;
  }

  lemma CalledDeeper(files: Files, roots: seq<string>, stack: seq<string>, path: string, k: nat)
    requires Called(files, roots, stack, path) && Readable(files, path) && k < |files[path].imports|
    ensures Called(files, roots, stack + [path], files[path].imports[k].target)
  {
    var g, target := Imports(files), files[path].imports[k].target;
    assert g[path][k] == target;
    RootedStep(files, roots, path, target);
    if stack == [] {
      assert stack + [path] == [path];
    } else {
      WalkLast(g, stack, path);
    }
  }

  lemma RootedStep(files: Files, roots: seq<string>, a: string, b: string)
    requires Rooted(files, roots, a) && Link(Imports(files), a, b)
    ensures Rooted(files, roots, b)
  {
    var g := Imports(files);
    var r :| r in roots && Reaches(g, r, a);
    var p :| Walk(g, p) && p[0] == r && p[|p| - 1] == a;
    WalkLast(g, p, b);
    assert (p + [b])[0] == r && (p + [b])[|p|] == b;
  }

  /** What an error says is true of the files. */
  ghost predicate FailureRight(files: Files, roots: seq<string>, failure: Failure) {
    match failure
    case ImportCycle(trail) =>
      && |trail| > 1 && Walk(Imports(files), trail) && trail[0] == trail[|trail| - 1] && Rooted(files, roots, trail[0])
    case OpenFailed(path) => Rooted(files, roots, path) && path !in files
    case ParseFailed(path) => Rooted(files, roots, path) && path in files && files[path].Broken?
  }

  lemma NotThere(files: Files, roots: seq<string>, stack: seq<string>, path: string)
    requires Called(files, roots, stack, path) && path !in files
    ensures FailureRight(files, roots, OpenFailed(path))
  {
    hide Rooted, Walk;
  }

  lemma NotParsed(files: Files, roots: seq<string>, stack: seq<string>, path: string)
    requires Called(files, roots, stack, path) && path in files && files[path].Broken?
    ensures FailureRight(files, roots, ParseFailed(path))
  {
    hide Rooted, Walk;
  }

  lemma NoneResolved(items: seq<ImportItem>, units: seq<ParsedUnit>)
    ensures ResolvedRight(items, units, []) && NoEntry(units, |units|)
  {
  }

  // --------------------------------------------------------------------- all inputs

  /** Everything the inputs reach can be opened and parsed, and none of it imports itself. */
  ghost predicate Loadable(files: Files, roots: seq<string>) {
    forall p :: Rooted(files, roots, p) ==> Readable(files, p) && !OnCycle(Imports(files), p)
  }

  /** The units are exactly what the inputs reach, each once, after everything it imports. */
  ghost predicate LoadedExactly(files: Files, roots: seq<string>, units: seq<ParsedUnit>) {
    && (forall p :: Rooted(files, roots, p) <==> p in Paths(units))
    && (forall i, j :: 0 <= i < j < |units| ==> units[i].canonicalPath != units[j].canonicalPath)
    && (forall i :: 0 <= i < |units| ==> UnitRight(files, units, i))
    && (forall i :: 0 <= i < |units| ==> (units[i].isEntry <==> units[i].canonicalPath in roots))
  }

  /** The ids of the inputs, in order of first appearance. */
  predicate EntriesRight(paths: seq<string>, units: seq<ParsedUnit>, entries: seq<nat>) {
    && (forall e :: e in entries ==> e < |units| && units[e].canonicalPath in paths)
    && (forall i, j :: 0 <= i < j < |entries| ==> entries[i] != entries[j])
    && (forall k :: 0 <= k < |paths| ==> Entered(units, entries, paths[k]))
  }

  predicate Entered(units: seq<ParsedUnit>, entries: seq<nat>, path: string) {
    exists e :: e in entries && e < |units| && units[e].canonicalPath == path
  }

  lemma RootLoaded(files: Files, roots: seq<string>, units: seq<ParsedUnit>, p: string)
    requires forall i :: 0 <= i < |units| ==> UnitRight(files, units, i)
    requires forall r :: r in roots ==> r in Paths(units)
    requires Rooted(files, roots, p)
    ensures p in Paths(units)
  {
    var g, order := Imports(files), Paths(units);
    var r :| r in roots && Reaches(g, r, p);
    var q :| Walk(g, q) && q[0] == r && q[|q| - 1] == p;
    UnitsPostorder(files, units);
    var i :| 0 <= i < |order| && order[i] == r;
    WalkDescends(g, order, q, i);
    if |q| > 1 {
      assert q[|q| - 1] in order[..i];
    }
  }

  lemma AllLoaded(files: Files, roots: seq<string>, units: seq<ParsedUnit>, index: map<string, nat>)
    requires Consistent(files, roots, units, index, []) && forall r :: r in roots ==> r in Paths(units)
    requires forall i :: 0 <= i < |units| ==> (units[i].isEntry <==> units[i].canonicalPath in roots)
    ensures LoadedExactly(files, roots, units) && Loadable(files, roots)
  {
    hide Rooted;
    forall p ensures Rooted(files, roots, p) <==> p in Paths(units) {
      if Rooted(files, roots, p) {
        RootLoaded(files, roots, units, p);
      }
      if i :| 0 <= i < |units| && Paths(units)[i] == p {
        assert units[i].canonicalPath in index;
      }
    }
    UnitsPostorder(files, units);
    forall p | Rooted(files, roots, p) ensures Readable(files, p) && !OnCycle(Imports(files), p) {
      PostorderNoCycle(Imports(files), Paths(units), p);
      var i :| 0 <= i < |units| && Paths(units)[i] == p;
      assert UnitRight(files, units, i);
    }
  }

  lemma FailsUnloadable(files: Files, roots: seq<string>, failure: Failure)
    requires FailureRight(files, roots, failure)
    ensures !Loadable(files, roots)
  {
    hide Rooted;
    if failure.ImportCycle? {
      assert OnCycle(Imports(files), failure.trail[0]);
    }
  }

  lemma InputCalled(files: Files, roots: seq<string>, k: nat)
    requires k < |roots|
    ensures Called(files, roots, [], roots[k])
  {
    ReachesSelf(Imports(files), roots[k]);
  }

  /** Loading the next input keeps the flags and the entry list right. */
  lemma NextInput(
    paths: seq<string>, path: string, before: seq<ParsedUnit>, after: seq<ParsedUnit>, id: nat, entries: seq<nat>,
    index: map<string, nat>
  )
    requires id < |after| && after[id].canonicalPath == path && FlagsRight(before, after, id, true)
    requires IndexRight(after, index) && InputsDone(paths, before, entries)
    ensures InputsDone(paths + [path], after, if id in entries then entries else entries + [id])
  {
    forall p | p in paths ensures p in Paths(before) {
      var k :| 0 <= k < |paths| && paths[k] == p;
      assert Entered(before, entries, paths[k]);
      var e :| e in entries && e < |before| && before[e].canonicalPath == p;
      assert Paths(before)[e] == p;
    }
    NextFlags(paths, path, before, after, id, index);
    NextEntries(paths, path, before, after, id, entries);
  }

  lemma NextFlags(
    paths: seq<string>, path: string, before: seq<ParsedUnit>, after: seq<ParsedUnit>, id: nat, index: map<string, nat>
  )
    requires id < |after| && after[id].canonicalPath == path && FlagsRight(before, after, id, true) && IndexRight(after, index)
    requires forall i :: 0 <= i < |before| ==> (before[i].isEntry <==> before[i].canonicalPath in paths)
    requires forall p :: p in paths ==> p in Paths(before)
    ensures forall i :: 0 <= i < |after| ==> (after[i].isEntry <==> after[i].canonicalPath in paths + [path])
  {
    forall p | p in paths ensures p in index && index[p] < |before| {
      var j :| 0 <= j < |before| && Paths(before)[j] == p;
      assert index[after[j].canonicalPath] == j;
    }
    forall i | 0 <= i < |after| ensures after[i].isEntry <==> after[i].canonicalPath in paths + [path] {
      assert after[i].canonicalPath == path ==> i == id;
    }
  }

  lemma NextEntries(
    paths: seq<string>, path: string, before: seq<ParsedUnit>, after: seq<ParsedUnit>, id: nat, entries: seq<nat>
  )
    requires id < |after| && after[id].canonicalPath == path && FlagsRight(before, after, id, true)
    requires EntriesRight(paths, before, entries)
    ensures EntriesRight(paths + [path], after, if id in entries then entries else entries + [id])
  {
    var more := if id in entries then entries else entries + [id];
    assert id in more && forall e :: e in entries ==> e in more;
    forall p | p in paths + [path] ensures Entered(after, more, p) {
      if p in paths {
        var k :| 0 <= k < |paths| && paths[k] == p;
        assert Entered(before, entries, paths[k]);
        var e :| e in entries && e < |before| && before[e].canonicalPath == p;
        assert e in more && after[e].canonicalPath == p;
      }
    }
    forall e | e in more ensures e < |after| && after[e].canonicalPath in paths + [path] {
      if e in entries {
        assert before[e].canonicalPath in paths;
      }
    }
  }

  ghost predicate InputsDone(paths: seq<string>, units: seq<ParsedUnit>, entries: seq<nat>) {
    && EntriesRight(paths, units, entries)
    && (forall i :: 0 <= i < |units| ==> (units[i].isEntry <==> units[i].canonicalPath in paths))
  }

  lemma ConsistentIndex(files: Files, roots: seq<string>, units: seq<ParsedUnit>, index: map<string, nat>, stack: seq<string>)
    requires Consistent(files, roots, units, index, stack)
    ensures IndexRight(units, index)
  {
  }

  lemma NoInputs(paths: seq<string>)
    ensures InputsDone(paths[..0], [], [])
  {
  }

  lemma InputsLoaded(paths: seq<string>, units: seq<ParsedUnit>, entries: seq<nat>)
    requires InputsDone(paths[..|paths|], units, entries)
    ensures EntriesRight(paths, units, entries)
    ensures forall i :: 0 <= i < |units| ==> (units[i].isEntry <==> units[i].canonicalPath in paths)
    ensures forall r :: r in paths ==> r in Paths(units)
  {
    assert paths[..|paths|] == paths;
    forall r | r in paths ensures r in Paths(units) {
      var k :| 0 <= k < |paths| && paths[k] == r;
      assert Entered(units, entries, paths[k]);
      var e :| e in entries && e < |units| && units[e].canonicalPath == paths[k];
      assert Paths(units)[e] == r;
    }
  }

  /** Loading succeeds exactly when everything the inputs reach can be loaded, and then the units
      are a topological sort of it; an error names a cycle or a file that is really at fault. */
  method LoadFiles(files: Files, paths: seq<string>)
    returns (failure: Option<Failure>, units: seq<ParsedUnit>, entryUnitIds: seq<nat>, edges: seq<ModuleEdge>)
    ensures failure == None <==> Loadable(files, paths)
    ensures failure.Some? ==> FailureRight(files, paths, failure.value)
    ensures CyclesOnly(files, paths, failure)
    ensures failure == None ==> LoadedExactly(files, paths, units) && EntriesRight(paths, units, entryUnitIds)
    ensures failure == None ==> edges == EdgesOf(files, units)
  {
    hide Consistent, FailureRight, FlagsRight, Called, EntriesRight, InputsDone, LoadedExactly, Loadable, UnitRight, IndexRight,
      Paths, CyclesOnly;
    units, entryUnitIds, edges := [], [], [];
    var session := new FrontendSession(files, paths);
    NoInputs(paths);
    for k := 0 to |paths|
      invariant session.files == files && session.roots == paths && session.Valid() && session.loadingStack == []
      invariant InputsDone(paths[..k], session.units, entryUnitIds)
    {
      InputCalled(files, paths, k);
      ghost var before := session.units;
      var id;
      failure, id := session.LoadFile(paths[k], true);
      if failure.Some? {
        FailsUnloadable(files, paths, failure.value);
        FailsOnCycles(files, paths, failure);
        return;
      }
      ConsistentIndex(files, paths, session.units, session.canonicalToUnitId, []);
      NextInput(paths[..k], paths[k], before, session.units, id, entryUnitIds, session.canonicalToUnitId);
      assert paths[..k + 1] == paths[..k] + [paths[k]];
      if id !in entryUnitIds {
        entryUnitIds := entryUnitIds + [id];
      }
    }
    failure, units := None, session.units;
    InputsLoaded(paths, units, entryUnitIds);
    AllLoaded(files, paths, units, session.canonicalToUnitId);
    ExactUnits(files, paths, units);
    FailsOnCycles(files, paths, failure);
    edges := RebuildModuleGraph(files, units);
  }

  /** With readable and well-formed files, the only error is a cycle error, raised exactly when the inputs reach a cycle. */
  ghost predicate CyclesOnly(files: Files, roots: seq<string>, failure: Option<Failure>) {
    (forall p :: Rooted(files, roots, p) ==> Readable(files, p))
    ==> && (failure.Some? <==> exists p :: Rooted(files, roots, p) && OnCycle(Imports(files), p))
        && (failure.Some? ==> failure.value.ImportCycle?)
  }

  lemma FailsOnCycles(files: Files, roots: seq<string>, failure: Option<Failure>)
    requires failure == None <==> Loadable(files, roots)
    requires failure.Some? ==> FailureRight(files, roots, failure.value)
    ensures CyclesOnly(files, roots, failure)
  {
    hide Rooted, OnCycle;
  }

  lemma ExactUnits(files: Files, paths: seq<string>, units: seq<ParsedUnit>)
    requires LoadedExactly(files, paths, units)
    ensures forall i :: 0 <= i < |units| ==> UnitRight(files, units, i)
  {
  }

  // --------------------------------------------------------------- the module graph

  function ItemsOf(files: Files, units: seq<ParsedUnit>, i: nat): seq<ImportItem>
    requires i < |units| && UnitRight(files, units, i)
  {
    files[units[i].canonicalPath].imports
  }

  /** The edges of unit `i` for its first `k` imports. */
  function UnitEdges(files: Files, units: seq<ParsedUnit>, i: nat, k: nat): (edges: seq<ModuleEdge>)
    requires i < |units| && UnitRight(files, units, i) && k <= |units[i].resolved|
    ensures |edges| == k
    ensures forall j :: 0 <= j < k ==>
      edges[j] == ModuleEdge(i, units[i].resolved[j], ItemsOf(files, units, i)[j].kind)
  {
    seq(k, j requires 0 <= j < k => ModuleEdge(i, units[i].resolved[j], ItemsOf(files, units, i)[j].kind))
  }

  function EdgesTo(files: Files, units: seq<ParsedUnit>, n: nat): seq<ModuleEdge>
    requires n <= |units| && forall i :: 0 <= i < |units| ==> UnitRight(files, units, i)
  {
    if n == 0 then [] else EdgesTo(files, units, n - 1) + UnitEdges(files, units, n - 1, |units[n - 1].resolved|)
  }

  function EdgesOf(files: Files, units: seq<ParsedUnit>): seq<ModuleEdge>
    requires forall i :: 0 <= i < |units| ==> UnitRight(files, units, i)
  {
    EdgesTo(files, units, |units|)
  }

  method RebuildModuleGraph(files: Files, units: seq<ParsedUnit>) returns (edges: seq<ModuleEdge>)
    requires forall i :: 0 <= i < |units| ==> UnitRight(files, units, i)
    ensures edges == EdgesOf(files, units)
  {
    edges := [];
    for i := 0 to |units|
      invariant edges == EdgesTo(files, units, i)
    {
      var items := ItemsOf(files, units, i);
      ghost var before := edges;
      for k := 0 to |items|
        invariant edges == before + UnitEdges(files, units, i, k)
      {
        edges := edges + [ModuleEdge(i, units[i].resolved[k], items[k].kind)];
      }
    }
  }

  /** The module graph has an edge for every import and no other, and every edge leads to an earlier unit. */
  lemma {:induction false} EdgesExact(files: Files, units: seq<ParsedUnit>, n: nat, e: ModuleEdge)
    requires n <= |units| && forall i :: 0 <= i < |units| ==> UnitRight(files, units, i)
    requires forall i, j :: 0 <= i < j < |units| ==> units[i].canonicalPath != units[j].canonicalPath
    ensures e in EdgesTo(files, units, n) <==>
      && e.to < e.from < n
      && ImportItem(units[e.to].canonicalPath, e.kind) in ItemsOf(files, units, e.from)
    decreases n
  {
    if n > 0 {
      var i := n - 1;
      EdgesExact(files, units, i, e);
      UnitEdgesExact(files, units, i, e);
    }
  }

  lemma UnitEdgesExact(files: Files, units: seq<ParsedUnit>, i: nat, e: ModuleEdge)
    requires i < |units| && forall i :: 0 <= i < |units| ==> UnitRight(files, units, i)
    requires forall i, j :: 0 <= i < j < |units| ==> units[i].canonicalPath != units[j].canonicalPath
    ensures e in UnitEdges(files, units, i, |units[i].resolved|) <==>
      && e.to < e.from == i
      && ImportItem(units[e.to].canonicalPath, e.kind) in ItemsOf(files, units, i)
  {
    var items, edges := ItemsOf(files, units, i), UnitEdges(files, units, i, |units[i].resolved|);
    assert UnitRight(files, units, i);
    if e in edges {
      var k :| 0 <= k < |edges| && edges[k] == e;
      assert items[k] == ImportItem(units[e.to].canonicalPath, e.kind);
    }
    if e.to < e.from == i && ImportItem(units[e.to].canonicalPath, e.kind) in items {
      var k :| 0 <= k < |items| && items[k] == ImportItem(units[e.to].canonicalPath, e.kind);
      assert units[units[i].resolved[k]].canonicalPath == units[e.to].canonicalPath;
      assert edges[k] == e;
    }
  }
}
