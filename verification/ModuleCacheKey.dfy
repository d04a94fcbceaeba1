/** The text that a module's cache key is hashed from, and why two modules never share it. */
module ModuleCacheKey {
  import opened Wrappers
  import opened Decimals

  datatype DependencyKind = Import | ReExport

  datatype Dependency = Dependency(identity: string, kind: DependencyKind, requestedPath: string, interfaceHash: string)

  datatype Module = Module(
    identity: string, sourceHash: string, interfaceHash: string, optimizationLevel: string, optimizerPipeline: string,
    isEntry: bool, entryOrder: Option<nat>, dependencies: seq<Dependency>, cacheKey: string)

  // ---------------------------------------------------------------------- fields

  function Field(name: string, value: string): string {
    name + ":" + Decimal(|value|) + ":" + value
  }

  /** A field ends where its length says, whatever its value contains. */
  lemma FieldPrefix(name: string, a: string, x: string, b: string, y: string)
    requires Field(name, a) + x == Field(name, b) + y
    ensures a == b && x == y
  {
    var u, v := ":" + a + x, ":" + b + y;
    var head := name + ":";
    assert Field(name, a) + x == head + (Decimal(|a|) + u);
    assert Field(name, b) + y == head + (Decimal(|b|) + v);
    assert Decimal(|a|) + u == (Field(name, a) + x)[|head|..] == Decimal(|b|) + v;
    DecimalPrefix(|a|, u, |b|, v);
    assert u[1..] == a + x && v[1..] == b + y;
    SplitAt(a, x, b, y);
  }

  lemma SplitAt(a: string, x: string, b: string, y: string)
    requires a + x == b + y && |a| == |b|
    ensures a == b && x == y
  {
    assert a == (a + x)[..|a|] && b == (b + y)[..|b|];
    assert x == (a + x)[|a|..] && y == (b + y)[|b|..];
  }

  function KindName(kind: DependencyKind): string {
    if kind == Import then "import" else "re_export"
  }

  function BoolName(b: bool): string {
    if b then "true" else "false"
  }

  function OrderName(order: Option<nat>): string {
    match order case Some(n) => Decimal(n) case None => "none"
  }

  lemma OrderNameInjective(a: Option<nat>, b: Option<nat>)
    requires OrderName(a) == OrderName(b)
    ensures a == b
  {
    if a.Some? {
      DecimalDigits(a.value);
      assert IsDigit(OrderName(a)[0]);
    }
    if b.Some? {
      DecimalDigits(b.value);
      assert IsDigit(OrderName(b)[0]);
    }
    if a.Some? && b.Some? {
      DecimalInjective(a.value, b.value);
    }
  }

  function DependencyFields(d: Dependency): string {
    Field("identity", d.identity) + Field("kind", KindName(d.kind)) + Field("requested", d.requestedPath)
    + Field("interface", d.interfaceHash)
  }

  function DependenciesText(ds: seq<Dependency>): string {
    if ds == [] then "" else DependencyFields(ds[0]) + DependenciesText(ds[1..])
  }

  function HashFields(m: Module): string {
    Field("identity", m.identity) + Field("source", m.sourceHash) + Field("interface", m.interfaceHash)
  }

  function BuildFields(m: Module): string {
    Field("optimization_level", m.optimizationLevel)
    + Field("optimizer_pipeline", m.optimizerPipeline)
    + Field("entry", BoolName(m.isEntry))
    + Field("entry_order", OrderName(m.entryOrder))
  }

  /** The text before the dependencies. */
  function HeadFields(m: Module): string {
    "module-cache-key-v1" + Field("artifact", "cdbc 0.1") + HashFields(m) + BuildFields(m)
  }

  function KeyText(m: Module): string {
    HeadFields(m) + "dependencies:" + Decimal(|m.dependencies|) + DependenciesText(m.dependencies)
  }

  /** The key text as it is streamed out. */
  method WriteKeyText(m: Module) returns (text: string)
    ensures text == KeyText(m)
  {
    hide Field, HeadFields, DependencyFields, Decimal;
    text := HeadFields(m) + "dependencies:" + Decimal(|m.dependencies|);
    ghost var before := text;
    ghost var written := "";
    assert before + written == before;
    for k := 0 to |m.dependencies|
      invariant text == before + written
      invariant DependenciesText(m.dependencies) == written + DependenciesText(m.dependencies[k..])
    {
      assert m.dependencies[k..][1..] == m.dependencies[k + 1..];
      text := text + DependencyFields(m.dependencies[k]);
      written := written + DependencyFields(m.dependencies[k]);
    }
    assert written + "" == written;
  }

  lemma DependencyPrefix(a: Dependency, x: string, b: Dependency, y: string)
    requires DependencyFields(a) + x == DependencyFields(b) + y
    ensures a == b && x == y
  {
    hide Field;
    var a3, b3 := Field("interface", a.interfaceHash) + x, Field("interface", b.interfaceHash) + y;
    var a2, b2 := Field("requested", a.requestedPath) + a3, Field("requested", b.requestedPath) + b3;
    var a1, b1 := Field("kind", KindName(a.kind)) + a2, Field("kind", KindName(b.kind)) + b2;
    assert DependencyFields(a) + x == Field("identity", a.identity) + a1;
    assert DependencyFields(b) + y == Field("identity", b.identity) + b1;
    FieldPrefix("identity", a.identity, a1, b.identity, b1);
    FieldPrefix("kind", KindName(a.kind), a2, KindName(b.kind), b2);
    FieldPrefix("requested", a.requestedPath, a3, b.requestedPath, b3);
    FieldPrefix("interface", a.interfaceHash, x, b.interfaceHash, y);
    assert KindName(a.kind)[0] == KindName(b.kind)[0];
  }

  lemma {:induction false} DependenciesInjective(a: seq<Dependency>, b: seq<Dependency>)
    requires |a| == |b| && DependenciesText(a) == DependenciesText(b)
    ensures a == b
    decreases |a|
  {
    hide DependencyFields;
    if a != [] {
      DependencyPrefix(a[0], DependenciesText(a[1..]), b[0], DependenciesText(b[1..]));
      DependenciesInjective(a[1..], b[1..]);
      assert a == [a[0]] + a[1..] && b == [b[0]] + b[1..];
    }
  }

  lemma FirstNotDigit(ds: seq<Dependency>)
    ensures DependenciesText(ds) == [] || !IsDigit(DependenciesText(ds)[0])
  {
    hide Decimal;
    if ds != [] {
      assert DependenciesText(ds)[0] == 'i';
    }
  }

  /** Modules that serialise to the same key text agree on everything but the stored key. */
  lemma KeyTextInjective(a: Module, b: Module)
    requires KeyText(a) == KeyText(b)
    ensures a == b.(cacheKey := a.cacheKey)
  {
    hide Field, Decimal, DependenciesText, HeadFields;
    var u, v := Decimal(|a.dependencies|) + DependenciesText(a.dependencies),
                Decimal(|b.dependencies|) + DependenciesText(b.dependencies);
    assert KeyText(a) == HeadFields(a) + ("dependencies:" + u);
    assert KeyText(b) == HeadFields(b) + ("dependencies:" + v);
    HeadPrefix(a, "dependencies:" + u, b, "dependencies:" + v);
    assert u == ("dependencies:" + u)[13..] == v;
    FirstNotDigit(a.dependencies);
    FirstNotDigit(b.dependencies);
    DecimalPrefix(|a.dependencies|, DependenciesText(a.dependencies), |b.dependencies|, DependenciesText(b.dependencies));
    DependenciesInjective(a.dependencies, b.dependencies);
  }

  lemma HashPrefix(a: Module, x: string, b: Module, y: string)
    requires HashFields(a) + x == HashFields(b) + y
    ensures a.identity == b.identity && a.sourceHash == b.sourceHash && a.interfaceHash == b.interfaceHash && x == y
  {
    hide Field;
    var a2, b2 := Field("interface", a.interfaceHash) + x, Field("interface", b.interfaceHash) + y;
    var a1, b1 := Field("source", a.sourceHash) + a2, Field("source", b.sourceHash) + b2;
    assert HashFields(a) + x == Field("identity", a.identity) + a1;
    assert HashFields(b) + y == Field("identity", b.identity) + b1;
    FieldPrefix("identity", a.identity, a1, b.identity, b1);
    FieldPrefix("source", a.sourceHash, a2, b.sourceHash, b2);
    FieldPrefix("interface", a.interfaceHash, x, b.interfaceHash, y);
  }

  lemma BuildPrefix(a: Module, x: string, b: Module, y: string)
    requires BuildFields(a) + x == BuildFields(b) + y
    ensures a.optimizationLevel == b.optimizationLevel && a.optimizerPipeline == b.optimizerPipeline
    ensures a.isEntry == b.isEntry && a.entryOrder == b.entryOrder && x == y
  {
    hide Field, BoolName, OrderName;
    var a3, b3 := Field("entry_order", OrderName(a.entryOrder)) + x, Field("entry_order", OrderName(b.entryOrder)) + y;
    var a2, b2 := Field("entry", BoolName(a.isEntry)) + a3, Field("entry", BoolName(b.isEntry)) + b3;
    var a1, b1 := Field("optimizer_pipeline", a.optimizerPipeline) + a2, Field("optimizer_pipeline", b.optimizerPipeline) + b2;
    assert BuildFields(a) + x == Field("optimization_level", a.optimizationLevel) + a1;
    assert BuildFields(b) + y == Field("optimization_level", b.optimizationLevel) + b1;
    FieldPrefix("optimization_level", a.optimizationLevel, a1, b.optimizationLevel, b1);
    FieldPrefix("optimizer_pipeline", a.optimizerPipeline, a2, b.optimizerPipeline, b2);
    FieldPrefix("entry", BoolName(a.isEntry), a3, BoolName(b.isEntry), b3);
    FieldPrefix("entry_order", OrderName(a.entryOrder), x, OrderName(b.entryOrder), y);
    BoolNameInjective(a.isEntry, b.isEntry);
    OrderNameInjective(a.entryOrder, b.entryOrder);
  }

  lemma HeadPrefix(a: Module, x: string, b: Module, y: string)
    requires HeadFields(a) + x == HeadFields(b) + y
    ensures a.(dependencies := [], cacheKey := "") == b.(dependencies := [], cacheKey := "") && x == y
  {
    hide Field, HashFields, BuildFields;
    var start := "module-cache-key-v1" + Field("artifact", "cdbc 0.1");
    var u, v := BuildFields(a) + x, BuildFields(b) + y;
    assert HeadFields(a) + x == start + (HashFields(a) + u);
    assert HeadFields(b) + y == start + (HashFields(b) + v);
    assert HashFields(a) + u == (HeadFields(a) + x)[|start|..] == HashFields(b) + v;
    HashPrefix(a, u, b, v);
    BuildPrefix(a, x, b, y);
  }

  lemma BoolNameInjective(a: bool, b: bool)
    requires BoolName(a) == BoolName(b)
    ensures a == b
  {
    assert BoolName(a)[0] == BoolName(b)[0];
  }
}
