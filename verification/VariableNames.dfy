/** The names that variables have at run time.

    A resolved user name is the source name, `#` and a serial number; a synthetic name of a
    `for-in` loop is built in the same way from a prefix of its own.  Here variables live in one
    table keyed by these texts.  The machine that keeps synthetic variables apart is shown
    to run alike, as long as no user name of the program spells a synthetic name that the program
    makes.  When that is so is stated exactly, and a program for which it is not is run.
 */
module VariableNames {
  import opened Runtime
  import opened Ast
  import opened Semantics
  import opened IR
  import opened FunctionTables
  import opened LoweringCorrectness
  import opened Decimals
  import opened SyntheticNames

  const MARK := {'#'}

  function ResolvedName(source: string, serial: nat): string {
    source + ['#'] + Decimal(serial)
  }

  function SyntheticName(prefix: string, serial: nat): string {
    ("__" + prefix) + ['#'] + Decimal(serial)
  }

  function NameText(x: VarName): string {
    match x
    case User(name) => name
    case Synthetic(prefix, serial) => SyntheticName(prefix, serial)
  }

  lemma SerialUnmarked(n: nat)
    ensures Unmarked(Decimal(n), MARK)
  {
    DecimalDigits(n);
    forall i | 0 <= i < |Decimal(n)| ensures Decimal(n)[i] !in MARK {
      assert IsDigit(Decimal(n)[i]);
    }
  }

  /** A user name spells a synthetic one exactly when its source name is the prefix behind two
      underscores and the two serial numbers agree. */
  lemma CollisionExactly(source: string, serial: nat, prefix: string, k: nat)
    ensures ResolvedName(source, serial) == SyntheticName(prefix, k) <==> source == "__" + prefix && serial == k
  {
    if ResolvedName(source, serial) == SyntheticName(prefix, k) {
      SerialUnmarked(serial);
      SerialUnmarked(k);
      LastMark(source, '#', Decimal(serial), "__" + prefix, '#', Decimal(k), MARK);
      DecimalInjective(serial, k);
    }
  }

  lemma SyntheticInjective(a: VarName, b: VarName)
    requires a.Synthetic? && b.Synthetic? && NameText(a) == NameText(b)
    ensures a == b
  {
    CollisionExactly("__" + a.prefix, a.serial, b.prefix, b.serial);
    assert a.prefix == ("__" + a.prefix)[2..] && b.prefix == ("__" + b.prefix)[2..];
  }

  /** The name is the text of one of the synthetic variables `made`. */
  predicate Spells(name: string, made: set<VarName>) {
    exists x :: x in made && NameText(x) == name
  }

  predicate Synthetics(made: set<VarName>) {
    forall x :: x in made ==> x.Synthetic?
  }

  // --------------------------------------------------------------- the renamed program

  function Rename(i: Instr): Instr {
    match i
    case LoadVar(dest, x) => LoadVar(dest, User(NameText(x)))
    case StoreVar(x, source) => StoreVar(User(NameText(x)), source)
    case AssignVar(x, source) => AssignVar(User(NameText(x)), source)
    case _ => i
  }

  function Renamed(p: Program): (q: Program)
    ensures |q.code| == |p.code| && q.functions == p.functions
    ensures forall i :: 0 <= i < |p.code| ==> q.code[i] == Rename(p.code[i])
  {
    p.(code := seq(|p.code|, i requires 0 <= i < |p.code| => Rename(p.code[i])))
  }

  /** The user names of a stream spell none of the synthetic variables `made`, and it uses no other. */
  predicate NamesApart(code: seq<Instr>, made: set<VarName>) {
    forall i :: 0 <= i < |code| ==> NameApart(code[i], made)
  }

  predicate NameApart(i: Instr, made: set<VarName>) {
    var x := VariableOf(i);
    x.Some? ==> VariableApart(x.value, made)
  }

  predicate VariableApart(x: VarName, made: set<VarName>) {
    match x
    case User(name) => !Spells(name, made)
    case Synthetic(_, _) => x in made
  }

  ghost predicate Plain(w: World, made: set<VarName>) {
    forall u :: u in w.vars ==> !Spells(u, made)
  }

  /** What called code does leaves no variable behind that spells a synthetic name. */
  ghost predicate CalleesPlain(rt: Runtime, made: set<VarName>) {
    forall prim: Prim, args: seq<Value>, w: World :: Plain(w, made) ==> Plain(rt.primitive(prim, args, w).world, made)
  }

  /** Called code neither sees nor touches the synthetic variables of its callers. */
  ghost function Visible(w: World, made: set<VarName>): World {
    w.(vars := map u | u in w.vars && !Spells(u, made) :: w.vars[u])
  }

  ghost function WithSynthetics(after: World, before: World, made: set<VarName>): World {
    after.(vars := after.vars + (map u | u in before.vars && Spells(u, made) :: before.vars[u]))
  }

  ghost function CallVisible(rt: Runtime, prim: Prim, args: seq<Value>, w: World, made: set<VarName>): Effect {
    match rt.primitive(prim, args, Visible(w, made))
    case Done(v, w1) => Done(v, WithSynthetics(w1, w, made))
    case Trap(message, w1) => Trap(message, WithSynthetics(w1, w, made))
  }

  ghost function Wrapped(rt: Runtime, made: set<VarName>): Runtime {
    rt.(primitive := (prim, args, w) => CallVisible(rt, prim, args, w, made))
  }

  /** One table holds what the visible world and the hidden variables hold. */
  ghost predicate SameVariables(w: World, hidden: map<VarName, Value>, t: World, made: set<VarName>) {
    && Plain(w, made) && t.heap == w.heap && t.output == w.output
    && (forall u :: !Spells(u, made) ==> (u in t.vars <==> u in w.vars) && (u in w.vars ==> t.vars[u] == w.vars[u]))
    && Synthetics(made) && (forall x :: x in hidden ==> x in made)
    && (forall x :: x in made ==>
         (x in hidden <==> NameText(x) in t.vars) && (x in hidden ==> t.vars[NameText(x)] == hidden[x]))
  }

  ghost predicate SameWorld(w: World, t: World, made: set<VarName>) {
    exists hidden :: SameVariables(w, hidden, t, made)
  }

  ghost predicate Alike(m: State, t: State, made: set<VarName>) {
    match m
    case Running(pc, regs, hidden, w) =>
      t.Running? && t.pc == pc && t.regs == regs && t.hidden == map[] && SameVariables(w, hidden, t.world, made)
    case Returned(v, w) => t.Returned? && t.value == v && SameWorld(w, t.world, made)
    case Trapped(message, w) => t.Trapped? && t.message == message && SameWorld(w, t.world, made)
    case Stuck => t.Stuck?
  }

  lemma VisibleIs(w: World, hidden: map<VarName, Value>, t: World, made: set<VarName>)
    requires SameVariables(w, hidden, t, made)
    ensures Visible(t, made) == w
  {
    hide Spells, NameText;
    assert Visible(t, made).vars == w.vars;
  }

  lemma SynthesesKept(w: World, hidden: map<VarName, Value>, t: World, w1: World, made: set<VarName>)
    requires SameVariables(w, hidden, t, made) && Plain(w1, made)
    ensures SameVariables(w1, hidden, WithSynthetics(w1, t, made), made)
  {
    hide NameText;
    var t1 := WithSynthetics(w1, t, made);
    forall x | x in made
      ensures (x in hidden <==> NameText(x) in t1.vars) && (x in hidden ==> t1.vars[NameText(x)] == hidden[x])
    {
      assert Spells(NameText(x), made);
    }
  }

  lemma ApplyAlike(rt: Runtime, prim: Prim, args: seq<Value>, w: World, hidden: map<VarName, Value>, t: World, made: set<VarName>)
    requires SameVariables(w, hidden, t, made) && CalleesPlain(rt, made)
    ensures
      var a, b := Apply(rt, prim, args, w), Apply(Wrapped(rt, made), prim, args, t);
      && (a.Done? <==> b.Done?) && (a.Done? ==> a.value == b.value) && (a.Trap? ==> b.message == a.message)
      && SameVariables(a.world, hidden, b.world, made)
  {
    hide SameVariables, Plain, Visible, WithSynthetics, Spells;
    SameRest(w, hidden, t, made);
    VisibleIs(w, hidden, t, made);
    PlainCall(rt, prim, args, w, hidden, t, made);
    SynthesesKept(w, hidden, t, rt.primitive(prim, args, w).world, made);
  }

  lemma PlainCall(rt: Runtime, prim: Prim, args: seq<Value>, w: World, hidden: map<VarName, Value>, t: World, made: set<VarName>)
    requires SameVariables(w, hidden, t, made) && CalleesPlain(rt, made)
    ensures Plain(rt.primitive(prim, args, w).world, made)
  {
    hide Spells;
  }

  lemma SameRest(w: World, hidden: map<VarName, Value>, t: World, made: set<VarName>)
    requires SameVariables(w, hidden, t, made)
    ensures t.heap == w.heap && t.output == w.output
  {
    hide Spells;
  }

  lemma ReadAlike(m: State, t: State, x: VarName, made: set<VarName>)
    requires m.Running? && Alike(m, t, made) && VariableApart(x, made)
    ensures
      var a, b := LoadVariable(m, x), LoadVariable(t, User(NameText(x)));
      && (a.Done? <==> b.Done?) && (a.Done? ==> a.value == b.value) && (a.Trap? ==> b.message == a.message)
      && a.world == m.world && b.world == t.world
  {
    hide Spells;
  }

  lemma StoreAlike(m: State, t: State, x: VarName, v: Value, made: set<VarName>)
    requires m.Running? && Alike(m, t, made) && VariableApart(x, made)
    ensures Alike(StoreVariable(m, x, v), StoreVariable(t, User(NameText(x)), v), made)
  {
    match x
    case User(name) =>
      forall y | y in made ensures NameText(y) != name {
        assert !Spells(name, made);
      }
    case Synthetic(_, _) =>
      assert Spells(NameText(x), made);
      forall y | y in made && NameText(y) == NameText(x) ensures y == x {
        SyntheticInjective(x, y);
      }
  }

  lemma WorldsAlike(w: World, hidden: map<VarName, Value>, t: World, made: set<VarName>)
    requires SameVariables(w, hidden, t, made)
    ensures SameWorld(w, t, made)
  {
  }

  /** What `Alike` says of a running machine. */
  lemma RunningAlike(m: State, t: State, made: set<VarName>)
    requires m.Running? && Alike(m, t, made)
    ensures t.Running? && t.pc == m.pc && t.regs == m.regs && SameVariables(m.world, m.hidden, t.world, made)
  {
    hide SameVariables;
  }

  lemma FinishAlike(m: State, t: State, dest: Register, a: Effect, b: Effect, made: set<VarName>)
    requires m.Running? && Alike(m, t, made)
    requires (a.Done? <==> b.Done?) && (a.Done? ==> a.value == b.value) && (a.Trap? ==> b.message == a.message)
    requires SameVariables(a.world, m.hidden, b.world, made)
    ensures Alike(Finish(m, dest, a), Finish(t, dest, b), made)
  {
    hide SameVariables;
    WorldsAlike(a.world, m.hidden, b.world, made);
  }

  lemma PrintAlike(w: World, hidden: map<VarName, Value>, t: World, v: Value, made: set<VarName>)
    requires SameVariables(w, hidden, t, made)
    ensures SameVariables(Emit(w, v), hidden, Emit(t, v), made)
  {
    hide Spells;
  }

  /** One step of the two machines. */
  lemma StepAlike(rt: Runtime, p: Program, m: State, t: State, made: set<VarName>)
    requires NamesApart(p.code, made) && CalleesPlain(rt, made) && Alike(m, t, made)
    ensures Alike(Step(rt, p, m), Step(Wrapped(rt, made), Renamed(p), t), made)
  {
    hide SameVariables, Spells, Apply, CalleesPlain, NameText, SameWorld, Finish, LoadVariable, StoreVariable, Emit,
      Wrapped, ReadsReady;
    if m.Running? && m.pc < |p.code| {
      RunningAlike(m, t, made);
      assert Renamed(p).code[m.pc] == Rename(p.code[m.pc]) && NameApart(p.code[m.pc], made);
      match p.code[m.pc]
      case Compute(dest, prim, arguments) =>
        if ReadsReady(m.regs, arguments) {
          var args := ReadAll(m.regs, arguments);
          ApplyAlike(rt, prim, args, m.world, m.hidden, t.world, made);
          FinishAlike(m, t, dest, Apply(rt, prim, args, m.world), Apply(Wrapped(rt, made), prim, args, t.world), made);
        }
      case MakeFunction(dest, i) =>
        if i < |p.functions| {
          var prim := MakeClosure(p.functions[i].functionLabel, p.functions[i].parameters);
          ApplyAlike(rt, prim, [], m.world, m.hidden, t.world, made);
          FinishAlike(m, t, dest, Apply(rt, prim, [], m.world), Apply(Wrapped(rt, made), prim, [], t.world), made);
        }
      case LoadVar(dest, x) =>
        ReadAlike(m, t, x, made);
        FinishAlike(m, t, dest, LoadVariable(m, x), LoadVariable(t, User(NameText(x))), made);
      case StoreVar(x, source) =>
        if source in m.regs {
          StoreAlike(m, t, x, m.regs[source], made);
        }
      case AssignVar(x, source) =>
        if source in m.regs {
          ReadAlike(m, t, x, made);
          StoreAlike(m, t, x, m.regs[source], made);
          WorldsAlike(m.world, m.hidden, t.world, made);
        }
      case PrintValue(source) =>
        if source in m.regs {
          PrintAlike(m.world, m.hidden, t.world, m.regs[source], made);
        }
      case ReturnValue(_) => WorldsAlike(m.world, m.hidden, t.world, made);
      case _ =>
    }
  }

  /** Whole runs: with names apart, one table of variables behaves as if the synthetic ones were out of reach. */
  lemma {:induction false} RunsAlike(rt: Runtime, p: Program, m: State, t: State, n: nat, made: set<VarName>)
    requires NamesApart(p.code, made) && CalleesPlain(rt, made) && Alike(m, t, made)
    ensures
      var m', t' := Steps(rt, p, m, n), Steps(Wrapped(rt, made), Renamed(p), t, n);
      Alike(m', t', made) && (Halted(p, m') <==> Halted(Renamed(p), t'))
    decreases n
  {
    hide Step, NamesApart, CalleesPlain, SameVariables, SameWorld, Wrapped;
    if n > 0 {
      StepAlike(rt, p, m, t, made);
      RunsAlike(rt, p, Step(rt, p, m), Step(Wrapped(rt, made), Renamed(p), t), n - 1, made);
    }
  }

  /** A fresh machine in a world without synthetic names. */
  lemma StartsAlike(w: World, made: set<VarName>)
    requires Plain(w, made) && Synthetics(made)
    ensures Alike(Running(0, map[], map[], w), Running(0, map[], map[], w), made)
  {
    forall x | x in made ensures NameText(x) !in w.vars {
      assert Spells(NameText(x), made);
    }
  }

  /** The one-table machine has ended as the outcome says. */
  ghost predicate EndsInOneTable(p: Program, r: Outcome, t: State, made: set<VarName>) {
    match r
    case Normal(w) => t.Running? && t.pc == |p.code| && SameWorld(w, t.world, made)
    case Returned(v, w) => t.Returned? && t.value == v && SameWorld(w, t.world, made)
    case Faulted(message, w) => t.Trapped? && t.message == message && SameWorld(w, t.world, made)
    case _ => false
  }

  lemma EndsAlike(p: Program, r: Outcome, m: State, t: State, made: set<VarName>)
    requires Ends(p, r, m) && Alike(m, t, made)
    ensures EndsInOneTable(p, r, t, made)
  {
    hide SameVariables;
    if m.Running? {
      WorldsAlike(m.world, m.hidden, t.world, made);
    }
  }

  // ------------------------------------------------------------------ whole programs

  /** The user variables in a stream. */
  function UsersOf(code: seq<Instr>): set<string> {
    if code == [] then {}
    else
      var x := VariableOf(code[0]);
      (if x.Some? && x.value.User? then {x.value.name} else {}) + UsersOf(code[1..])
  }

  function TableUsers(fs: seq<FunctionBody>): set<string> {
    if fs == [] then {} else UsersOf(fs[0].code) + TableUsers(fs[1..])
  }

  /** The user variables of all streams of a program. */
  function ProgramUsers(p: Program): set<string> {
    UsersOf(p.code) + TableUsers(p.functions)
  }

  /** No user variable of the program has the text of a synthetic variable of the program. */
  predicate Separated(p: Program) {
    forall u, x :: u in ProgramUsers(p) && x in ProgramSynthetics(p) ==> NameText(x) != u
  }

  /** The source name and serial number of a variable are those of a `for-in` loop's variable. */
  predicate Reserved(source: string, serial: nat, serials: nat) {
    serial < serials && source == "__" + PrefixAt(serial)
  }

  lemma ReservedSpells(source: string, serial: nat, serials: nat)
    requires Reserved(source, serial, serials)
    ensures NameAt(serial) in Made(0, serials) && NameText(NameAt(serial)) == ResolvedName(source, serial)
  {
  }

  /** The variables of the loops are out of the program's reach exactly when no name that the
      program resolves is one of those that lowering hands out. */
  lemma SeparatedExactly(program: List<Stmt>)
    ensures
      Separated(Lower(program))
      <==> forall source, serial ::
             ResolvedName(source, serial) in ProgramUsers(Lower(program)) ==> !Reserved(source, serial, Serials(program))
  {
    hide ProgramUsers, ProgramSynthetics, Lower, Serials;
    var p, n := Lower(program), Serials(program);
    NamesExactly(program);
    if Separated(p) {
      forall source, serial | ResolvedName(source, serial) in ProgramUsers(p) ensures !Reserved(source, serial, n) {
        if Reserved(source, serial, n) {
          ReservedSpells(source, serial, n);
        }
      }
    }
    if forall source, serial :: ResolvedName(source, serial) in ProgramUsers(p) ==> !Reserved(source, serial, n) {
      forall u, x | u in ProgramUsers(p) && x in ProgramSynthetics(p) ensures NameText(x) != u {
        assert NameText(x) == ResolvedName("__" + x.prefix, x.serial);
        assert Reserved("__" + x.prefix, x.serial, n);
      }
    }
  }

  lemma {:induction false} StreamUser(code: seq<Instr>, i: nat)
    requires i < |code| && VariableOf(code[i]).Some? && VariableOf(code[i]).value.User?
    ensures VariableOf(code[i]).value.name in UsersOf(code)
  {
    if i > 0 {
      StreamUser(code[1..], i - 1);
    }
  }

  lemma SeparatedApart(p: Program)
    requires Separated(p)
    ensures NamesApart(p.code, ProgramSynthetics(p))
  {
    hide UsersOf, SyntheticsOf, NameText;
    forall i | 0 <= i < |p.code| ensures NameApart(p.code[i], ProgramSynthetics(p)) {
      var x := VariableOf(p.code[i]);
      if x.Some? {
        if x.value.User? {
          StreamUser(p.code, i);
          assert x.value.name in ProgramUsers(p);
        } else {
          SyntheticsHave(p.code, i);
        }
      }
    }
  }

  lemma MadeSynthetic(a: nat, b: nat)
    ensures Synthetics(Made(a, b))
  {
  }

  /** Lowering preserves meaning on the one-table machine too, when the names of the program are separated. */
  lemma OneTablePreserved(rt: Runtime, program: List<Stmt>, w: World, fuel: nat) returns (n: nat)
    requires StmtsOk(program, false) && Separated(Lower(program))
    requires CalleesPlain(rt, Made(0, Serials(program))) && Plain(w, Made(0, Serials(program)))
    ensures
      var p, r, made := Lower(program), ExecAll(rt, program, w, fuel), Made(0, Serials(program));
      var q := Renamed(p);
      && (Finishes(r) ==>
           && Halted(q, Steps(Wrapped(rt, made), q, Initial(w), n))
           && EndsInOneTable(p, r, Steps(Wrapped(rt, made), q, Initial(w), n), made))
      && (r.OutOfFuel? ==> !Halted(q, Steps(Wrapped(rt, made), q, Initial(w), fuel)))
      && (Finishes(r) || r.OutOfFuel? || r.NoArm?)
  {
    hide *;
    var p, r, made := Lower(program), ExecAll(rt, program, w, fuel), Made(0, Serials(program));
    NamesExactly(program);
    SeparatedApart(p);
    MadeSynthetic(0, Serials(program));
    n := ProgramPreserved(rt, program, w, fuel);
    InitialAlike(w, made);
    RunsAlike(rt, p, Initial(w), Initial(w), n, made);
    RunsAlike(rt, p, Initial(w), Initial(w), fuel, made);
    if Finishes(r) {
      EndsAlike(p, r, Steps(rt, p, Initial(w), n), Steps(Wrapped(rt, made), Renamed(p), Initial(w), n), made);
    }
  }

  lemma InitialAlike(w: World, made: set<VarName>)
    requires Plain(w, made) && Synthetics(made)
    ensures Alike(Initial(w), Initial(w), made)
  {
    StartsAlike(w, made);
  }

}
