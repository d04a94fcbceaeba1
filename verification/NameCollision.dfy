/** A program whose user variable has the name of a loop's variable: the source prints the number,
    the machine with one table of variables prints the array.
 */
module NameCollision {
  import opened Wrappers
  import opened Runtime
  import opened Ast
  import opened Semantics
  import opened IR
  import opened Lowering
  import opened FunctionTables
  import opened CodeEquations
  import opened Placement
  import opened LoweringCorrectness
  import opened SyntheticNames
  import opened VariableNames

  const ITER := ResolvedName("__for_in_iter", 0)
  const ITEM := ResolvedName("x", 1)

  /** `let __for_in_iter = 5; for x in [1] {} print __for_in_iter;` */
  const ONE := Cons(Literal(Number(1.0)), Empty)
  const LOOP := ForIn(ITEM, Operation(MakeArray, ONE), Block(Empty))
  const REST := Cons(LOOP, Cons(Print(Variable(ITER)), Empty))
  const PROGRAM := Cons(Let(ITER, Literal(Number(5.0))), REST)

  // ------------------------------------------------------------- arrays on the heap

  function ArrayAt(heap: Heap, v: Value): Option<seq<Value>> {
    if v.Reference? && v.identity in heap && heap[v.identity].ArrayObject? then Some(heap[v.identity].elements) else None
  }

  function Primitive(prim: Prim, args: seq<Value>, w: World): Effect {
    if prim.MakeArray? then Done(Reference(|w.heap|), w.(heap := w.heap[|w.heap| := ArrayObject(args)]))
    else if prim.AssertArray? && |args| == 1 && ArrayAt(w.heap, args[0]).Some? then Done(args[0], w)
    else Trap("not an array operation", w)
  }

  function ElementAt(heap: Heap, v: Value, i: Value): Option<Value> {
    var elements := ArrayAt(heap, v);
    if elements.Some? && i.Number? && 0 <= i.n.Floor < |elements.value| then Some(elements.value[i.n.Floor]) else None
  }

  function LengthOf(heap: Heap, v: Value): Option<nat> {
    match ArrayAt(heap, v) case Some(elements) => Some(|elements|) case None => None
  }

  /** The array operations of the virtual machine. */
  const ARRAYS: Runtime := Runtime(
    (prim, args, w) => Primitive(prim, args, w),
    (heap, v) => LengthOf(heap, v),
    (heap, v, i) => ElementAt(heap, v, i),
    (heap, v, name) => None)

  const EMPTY := World(map[], map[], [])
  const HEAP: Heap := map[0 := ArrayObject([Number(1.0)])]
  const ARRAY := Reference(0)

  // ----------------------------------------------------------------------- the source

  lemma NamesDiffer()
    ensures ITER != ITEM
  {
    assert ITER[0] == '_' && ITEM[0] == 'x';
  }

  lemma ArrayMade(w: World)
    requires w.heap == map[]
    ensures EvalExpr(ARRAYS, Operation(MakeArray, ONE), w) == Yields(ARRAY, w.(heap := HEAP))
  {
    assert EvalOperands(ARRAYS, Empty, w) == Yields([], w);
    assert [Number(1.0)] + [] == [Number(1.0)];
    assert EvalOperands(ARRAYS, ONE, w) == Yields([Number(1.0)], w);
  }

  lemma IterableRead(w: World)
    requires w.heap == map[]
    ensures EvalIterable(ARRAYS, ITEM, Operation(MakeArray, ONE), w)
         == Yields((ARRAY, 1), World(w.vars[ITEM := Nil], HEAP, w.output))
  {
    hide EvalExpr;
    ArrayMade(w);
  }

  lemma TurnRuns(w: World)
    requires w.heap == HEAP && ITEM in w.vars
    ensures ExecForIn(ARRAYS, ITEM, ARRAY, 1, 0, Block(Empty), w, 1) == Normal(BindVar(w, ITEM, Number(1.0)))
  {
    var w1 := BindVar(w, ITEM, Number(1.0));
    assert (0 as real).Floor == 0;
    assert ExecAll(ARRAYS, Empty, w1, 1) == Normal(w1);
    assert Exec(ARRAYS, Block(Empty), w1, 1) == Normal(w1);
    assert ExecForIn(ARRAYS, ITEM, ARRAY, 1, 1, Block(Empty), w1, 0) == Normal(w1);
  }

  lemma LoopRuns(w: World)
    requires w.heap == map[]
    ensures Exec(ARRAYS, LOOP, w, 1) == Normal(World(w.vars[ITEM := Number(1.0)], HEAP, w.output))
  {
    hide EvalIterable, ExecForIn;
    IterableRead(w);
    var w1 := World(w.vars[ITEM := Nil], HEAP, w.output);
    TurnRuns(w1);
    assert w1.vars[ITEM := Number(1.0)] == w.vars[ITEM := Number(1.0)];
  }

  /** The source prints 5. */
  lemma SourcePrintsNumber()
    ensures
      var r := ExecAll(ARRAYS, PROGRAM, EMPTY, 1);
      r.Normal? && r.world.output == [Number(5.0)]
  {
    NamesDiffer();
    var w := World(map[ITER := Number(5.0)], map[], []);
    assert Exec(ARRAYS, PROGRAM.head, EMPTY, 1) == Normal(w);
    LoopRuns(w);
    var w1 := World(w.vars[ITEM := Number(1.0)], HEAP, []);
    var last := Cons(Print(Variable(ITER)), Empty);
    assert Exec(ARRAYS, last.head, w1, 1) == Normal(Emit(w1, Number(5.0)));
    assert ExecAll(ARRAYS, Empty, Emit(w1, Number(5.0)), 1) == Normal(Emit(w1, Number(5.0)));
    assert ExecAll(ARRAYS, last, w1, 1) == Normal(Emit(w1, Number(5.0)));
    assert ExecAll(ARRAYS, REST, w, 1) == Normal(Emit(w1, Number(5.0)));
  }

  // ---------------------------------------------------------------------- the machine

  const MADE := Made(0, 3)
  const INDEX := NameText(NameAt(1))
  const LENGTH := NameText(NameAt(2))

  /** The code of the program, with the variables' texts as names. */
  const SETUP: seq<Instr> := [
    Compute(0, Constant(Number(5.0)), []),
    StoreVar(User(ITER), 0),
    Compute(1, Constant(Number(1.0)), []),
    Compute(2, MakeArray, [1]),
    Compute(3, AssertArray, [2]),
    StoreVar(User(ITER), 3),
    Compute(4, Constant(Number(0.0)), []),
    StoreVar(User(INDEX), 4),
    Compute(5, Constant(Nil), []),
    StoreVar(User(ITEM), 5),
    LoadVar(6, User(ITER)),
    Compute(7, Len, [6]),
    StoreVar(User(LENGTH), 7)]

  const TURN: seq<Instr> := [
    LoadVar(8, User(INDEX)),
    LoadVar(9, User(LENGTH)),
    Compute(10, Compare(Less), [8, 9]),
    JumpIf(10, false, 28),
    LoadVar(11, User(ITER)),
    LoadVar(12, User(INDEX)),
    Compute(13, Index, [11, 12]),
    AssignVar(User(ITEM), 13),
    Jump(27)]

  const STEP: seq<Instr> := [
    LoadVar(14, User(INDEX)),
    Compute(15, Constant(Number(1.0)), []),
    Compute(16, Arithmetic(Add), [14, 15]),
    AssignVar(User(INDEX), 16),
    Jump(13),
    Jump(22)]

  const LAST: seq<Instr> := [LoadVar(17, User(ITER)), PrintValue(17)]

  lemma LetCode()
    ensures StmtCode(PROGRAM.head, Start, NoLoop)
         == [Compute(0, Constant(Number(5.0)), []), StoreVar(User(ITER), 0)]
    ensures StmtEnd(PROGRAM.head, Start) == Place(2, 1, 0, 0)
  {
    assert ExprEnd(Literal(Number(5.0)), Start) == Place(1, 1, 0, 0);
  }

  lemma ArrayCode(at: Place)
    requires at == Place(2, 1, 3, 0)
    ensures ExprCode(LOOP.iterable, at) == [Compute(1, Constant(Number(1.0)), []), Compute(2, MakeArray, [1])]
    ensures ExprEnd(LOOP.iterable, at) == Place(4, 3, 3, 0) && ResultOf(LOOP.iterable, at) == 2
  {
    var at1 := Place(3, 2, 3, 0);
    assert ExprEnd(ONE.head, at) == at1;
    assert OperandsEnd(Empty, at1) == at1;
    assert OperandsEnd(ONE, at) == at1;
    assert ResultsOf(Empty, at1) == [];
    assert ResultsOf(ONE, at) == [1] + [];
    assert OperandsCode(Empty, at1) == [];
    assert ExprCode(ONE.head, at) == [Compute(1, Constant(Number(1.0)), [])];
    assert OperandsCode(ONE, at) == ExprCode(ONE.head, at) + [];
    assert [1] + [] == [1];
  }

  lemma LoopCode()
    ensures
      var at := Place(2, 1, 0, 0);
      && StmtCode(LOOP, at, NoLoop)
         == [Compute(1, Constant(Number(1.0)), []), Compute(2, MakeArray, [1])] + ForInSetup(at, ITEM, 2, 3)
            + ForInTest(at, ITEM, 13, 8, 28) + ForInIncrement(at, 13, 14) + [Jump(22)]
      && StmtEnd(LOOP, at) == Place(28, 17, 3, 0)
  {
    hide ForInSetup, ForInTest, ForInIncrement, ExprCode, ExprEnd, ResultOf;
    var at := Place(2, 1, 0, 0);
    var body := Place(27, 17, 3, 0);
    ArrayCode(Place(2, 1, 3, 0));
    assert StmtsEnd(Empty, body) == body;
    assert StmtEnd(Block(Empty), body) == body;
    assert BodyPlace(LOOP, at) == body;
    LoopEndIs();
    ForInCodeParts(LOOP, at, NoLoop);
    assert StmtsCode(Empty, body, Loop(22, 28)) == [];
    assert StmtCode(Block(Empty), body, Loop(22, 28)) == [];
    var code := [Compute(1, Constant(Number(1.0)), []), Compute(2, MakeArray, [1])] + ForInSetup(at, ITEM, 2, 3)
                + ForInTest(at, ITEM, 13, 8, 28) + ForInIncrement(at, 13, 14);
    assert code + [] == code;
  }

  lemma LoopEndIs()
    ensures StmtEnd(LOOP, Place(2, 1, 0, 0)) == Place(28, 17, 3, 0)
  {
    hide ExprEnd;
    ArrayCode(Place(2, 1, 3, 0));
    var body := Place(27, 17, 3, 0);
    assert StmtsEnd(Empty, body) == body;
    assert StmtEnd(Block(Empty), body) == body;
  }

  lemma PrintCode(at: Place)
    requires at == Place(28, 17, 3, 0)
    ensures StmtsCode(REST.tail, at, NoLoop) == LAST
  {
    var last := Print(Variable(ITER));
    assert ExprCode(Variable(ITER), at) == [LoadVar(17, User(ITER))];
    assert ResultOf(Variable(ITER), at) == 17;
    assert StmtCode(last, at, NoLoop) == [LoadVar(17, User(ITER)), PrintValue(17)];
    assert StmtsCode(Empty, StmtEnd(last, at), NoLoop) == [];
    assert StmtsCode(REST.tail, at, NoLoop) == StmtCode(last, at, NoLoop) + [];
  }

  /** The instructions before renaming. */
  lemma LoweredCode()
    ensures
      var at := Place(2, 1, 0, 0);
      Lower(PROGRAM).code
      == [Compute(0, Constant(Number(5.0)), []), StoreVar(User(ITER), 0)]
         + ([Compute(1, Constant(Number(1.0)), []), Compute(2, MakeArray, [1])] + ForInSetup(at, ITEM, 2, 3)
            + ForInTest(at, ITEM, 13, 8, 28) + ForInIncrement(at, 13, 14) + [Jump(22)] + LAST)
  {
    hide StmtCode, StmtEnd, ForInSetup, ForInTest, ForInIncrement, StmtsCode, StmtsEnd;
    var at, end := Place(2, 1, 0, 0), Place(28, 17, 3, 0);
    LetCode();
    LoopCode();
    PrintCode(end);
    StmtsCodeParts(PROGRAM, Start, NoLoop);
    StmtsCodeParts(REST, at, NoLoop);
  }

  lemma TextIs()
    ensures NameText(NameAt(0)) == ITER && NameText(User(ITER)) == ITER && NameText(User(ITEM)) == ITEM
    ensures NameText(IterName(Place(2, 1, 0, 0))) == ITER && NameText(IndexName(Place(2, 1, 0, 0))) == INDEX
    ensures NameText(LengthName(Place(2, 1, 0, 0))) == LENGTH
  {
    assert "__" + "for_in_iter" == "__for_in_iter";
  }

  /** `b` is `a` with texts for names. */
  predicate Spelled(a: seq<Instr>, b: seq<Instr>) {
    |a| == |b| && forall i :: 0 <= i < |a| ==> Rename(a[i]) == b[i]
  }

  lemma SpelledAppend(a: seq<Instr>, b: seq<Instr>, a': seq<Instr>, b': seq<Instr>)
    requires Spelled(a, b) && Spelled(a', b')
    ensures Spelled(a + a', b + b')
  {
  }

  lemma SetupSpelled()
    ensures
      Spelled([Compute(0, Constant(Number(5.0)), []), StoreVar(User(ITER), 0)]
              + ([Compute(1, Constant(Number(1.0)), []), Compute(2, MakeArray, [1])]
                 + ForInSetup(Place(2, 1, 0, 0), ITEM, 2, 3)), SETUP)
  {
    hide NameText;
    TextIs();
  }

  lemma TurnSpelled()
    ensures Spelled(ForInTest(Place(2, 1, 0, 0), ITEM, 13, 8, 28), TURN)
  {
    hide NameText;
    TextIs();
  }

  lemma StepSpelled()
    ensures Spelled(ForInIncrement(Place(2, 1, 0, 0), 13, 14) + [Jump(22)], STEP)
  {
    hide NameText;
    TextIs();
  }

  lemma LastSpelled()
    ensures Spelled(LAST, LAST)
  {
    hide NameText;
    TextIs();
  }

  lemma CodeIs()
    ensures Renamed(Lower(PROGRAM)).code == SETUP + TURN + STEP + LAST
  {
    hide Rename, Lower, ForInSetup, ForInTest, ForInIncrement;
    var at := Place(2, 1, 0, 0);
    var let := [Compute(0, Constant(Number(5.0)), []), StoreVar(User(ITER), 0)];
    var made := [Compute(1, Constant(Number(1.0)), []), Compute(2, MakeArray, [1])];
    LoweredCode();
    SetupSpelled();
    TurnSpelled();
    StepSpelled();
    LastSpelled();
    JoinSpelled(let, made, ForInSetup(at, ITEM, 2, 3), ForInTest(at, ITEM, 13, 8, 28), ForInIncrement(at, 13, 14),
      [Jump(22)], LAST, SETUP, TURN, STEP, Lower(PROGRAM).code);
  }

  lemma JoinSpelled(l: seq<Instr>, a: seq<Instr>, s: seq<Instr>, t: seq<Instr>, u: seq<Instr>, j: seq<Instr>,
      e: seq<Instr>, b: seq<Instr>, b': seq<Instr>, b'': seq<Instr>, code: seq<Instr>)
    requires Spelled(l + (a + s), b) && Spelled(t, b') && Spelled(u + j, b'') && Spelled(e, LAST)
    requires code == l + (a + s + t + u + j + e)
    ensures Spelled(code, b + b' + b'' + LAST)
  {
    hide Spelled;
    SpelledAppend(l + (a + s), b, t, b');
    SpelledAppend(l + (a + s) + t, b + b', u + j, b'');
    SpelledAppend(l + (a + s) + t + (u + j), b + b' + b'', e, LAST);
    assert l + (a + s + t + u + j + e) == l + (a + s) + t + (u + j) + e;
  }

  // --------------------------------------------------------------- two instructions each

  predicate At(q: Program, m: State, code: seq<Instr>) {
    m.Running? && CodeAt(q, m.pc, code)
  }

  /** A constant is loaded and stored. */
  lemma StoreConstant(rt: Runtime, q: Program, m: State, r: Register, v: Value, x: string)
    requires At(q, m, [Compute(r, Constant(v), []), StoreVar(User(x), r)])
    ensures Runs(rt, q, m, 2, m.(pc := m.pc + 2, regs := m.regs[r := v], world := BindVar(m.world, x, v)))
  {
    hide Apply;
    InstrAt(q, m.pc, [Compute(r, Constant(v), []), StoreVar(User(x), r)], 0);
    InstrAt(q, m.pc, [Compute(r, Constant(v), []), StoreVar(User(x), r)], 1);
    ApplyConstant(rt, v, m.world);
    DoCompute(rt, q, m, r, Constant(v), [], []);
    var m1 := m.(pc := m.pc + 1, regs := m.regs[r := v]);
    DoStore(rt, q, m1, User(x), r);
    RunsThen(rt, q, m, 1, m1, 1, StoreVariable(m1, User(x), v));
  }

  /** Two variables are loaded. */
  lemma LoadTwo(rt: Runtime, q: Program, m: State, r: Register, x: string, r': Register, x': string)
    requires At(q, m, [LoadVar(r, User(x)), LoadVar(r', User(x'))]) && x in m.world.vars && x' in m.world.vars
    ensures Runs(rt, q, m, 2, m.(pc := m.pc + 2, regs := m.regs[r := m.world.vars[x]][r' := m.world.vars[x']]))
  {
    InstrAt(q, m.pc, [LoadVar(r, User(x)), LoadVar(r', User(x'))], 0);
    InstrAt(q, m.pc, [LoadVar(r, User(x)), LoadVar(r', User(x'))], 1);
    DoLoad(rt, q, m, r, User(x));
    var m1 := m.(pc := m.pc + 1, regs := m.regs[r := m.world.vars[x]]);
    DoLoad(rt, q, m1, r', User(x'));
    RunsThen(rt, q, m, 1, m1, 1, Finish(m1, r', LoadVariable(m1, User(x'))));
  }

  /** The wrapped primitive keeps the variables when the operation does. */
  lemma VariablesKept(prim: Prim, args: seq<Value>, t: World, v: Value, heap: Heap)
    requires ARRAYS.primitive(prim, args, Visible(t, MADE)) == Done(v, Visible(t, MADE).(heap := heap))
    ensures Wrapped(ARRAYS, MADE).primitive(prim, args, t) == Done(v, t.(heap := heap))
  {
    hide Spells;
    var w1 := Visible(t, MADE).(heap := heap);
    assert WithSynthetics(w1, t, MADE).vars == t.vars;
  }

  // --------------------------------------------------------------------- the whole run

  ghost const ONE_TABLE: Runtime := Wrapped(ARRAYS, MADE)

  lemma MakeApplies(w: World)
    requires w.heap == map[]
    ensures Apply(ONE_TABLE, MakeArray, [Number(1.0)], w) == Done(ARRAY, w.(heap := HEAP))
  {
    hide WithSynthetics, Spells;
    VariablesKept(MakeArray, [Number(1.0)], w, ARRAY, HEAP);
  }

  lemma AssertApplies(w: World)
    requires w.heap == HEAP
    ensures Apply(ONE_TABLE, AssertArray, [ARRAY], w) == Done(ARRAY, w)
  {
    hide WithSynthetics, Spells;
    VariablesKept(AssertArray, [ARRAY], w, ARRAY, HEAP);
  }

  lemma LenApplies(w: World)
    requires w.heap == HEAP
    ensures Apply(ONE_TABLE, Len, [ARRAY], w) == Done(Number(1.0), w)
  {
    hide CallVisible;
    ApplyLen(ONE_TABLE, ARRAY, w);
    assert LengthOf(HEAP, ARRAY) == Some(1);
  }

  lemma IndexApplies(w: World)
    requires w.heap == HEAP
    ensures Apply(ONE_TABLE, Index, [ARRAY, Number(0.0)], w) == Done(Number(1.0), w)
  {
    hide CallVisible;
    ApplyIndex(ONE_TABLE, ARRAY, Number(0.0), w);
    assert (0.0).Floor == 0;
    assert ElementAt(HEAP, ARRAY, Number(0.0)) == Some(Number(1.0));
  }

  /** The array is made and takes the place of the number. */
  lemma ArrayStored(q: Program, m: State) returns (m': State)
    requires At(q, m, SETUP[2..6]) && m.world.heap == map[]
    ensures Runs(ONE_TABLE, q, m, 4, m') && m'.Running? && m'.pc == m.pc + 4 && m'.hidden == m.hidden
    ensures m'.world == World(m.world.vars[ITER := ARRAY], HEAP, m.world.output)
  {
    hide Apply, Wrapped;
    var code := SETUP[2..6];
    InstrAt(q, m.pc, code, 0);
    InstrAt(q, m.pc, code, 1);
    InstrAt(q, m.pc, code, 2);
    InstrAt(q, m.pc, code, 3);
    ApplyConstant(ONE_TABLE, Number(1.0), m.world);
    DoCompute(ONE_TABLE, q, m, 1, Constant(Number(1.0)), [], []);
    var m1 := m.(pc := m.pc + 1, regs := m.regs[1 := Number(1.0)]);
    MakeApplies(m.world);
    DoCompute(ONE_TABLE, q, m1, 2, MakeArray, [1], [Number(1.0)]);
    var w := m.world.(heap := HEAP);
    var m2 := Running(m.pc + 2, m1.regs[2 := ARRAY], m.hidden, w);
    RunsThen(ONE_TABLE, q, m, 1, m1, 1, m2);
    AssertApplies(w);
    DoCompute(ONE_TABLE, q, m2, 3, AssertArray, [2], [ARRAY]);
    var m3 := Running(m.pc + 3, m2.regs[3 := ARRAY], m.hidden, w);
    RunsThen(ONE_TABLE, q, m, 2, m2, 1, m3);
    DoStore(ONE_TABLE, q, m3, User(ITER), 3);
    m' := StoreVariable(m3, User(ITER), ARRAY);
    RunsThen(ONE_TABLE, q, m, 3, m3, 1, m');
  }

  /** The loop is about to test its index; the user's variable holds the array. */
  predicate Looping(m: State, pc: nat, index: real) {
    && m.Running? && m.pc == pc && m.hidden == map[] && m.world.heap == HEAP && m.world.output == []
    && ITER in m.world.vars && m.world.vars[ITER] == ARRAY
    && INDEX in m.world.vars && m.world.vars[INDEX] == Number(index)
    && LENGTH in m.world.vars && m.world.vars[LENGTH] == Number(1.0)
    && ITEM in m.world.vars
  }

  lemma TextsDiffer()
    ensures ITER != INDEX && ITER != LENGTH && INDEX != LENGTH && ITER != ITEM && INDEX != ITEM && LENGTH != ITEM
  {
    TextIs();
    CollisionExactly("__for_in_iter", 0, "for_in_index", 1);
    CollisionExactly("__for_in_iter", 0, "for_in_len", 2);
    CollisionExactly("__for_in_index", 1, "for_in_len", 2);
    assert INDEX[0] == '_' && LENGTH[0] == '_' && ITER[0] == '_' && ITEM[0] == 'x';
  }

  lemma LengthStored(q: Program, m: State) returns (m': State)
    requires At(q, m, SETUP[10..13]) && ITER in m.world.vars && m.world.vars[ITER] == ARRAY && m.world.heap == HEAP
    ensures Runs(ONE_TABLE, q, m, 3, m') && m'.Running? && m'.pc == m.pc + 3 && m'.hidden == m.hidden
    ensures m'.world == BindVar(m.world, LENGTH, Number(1.0))
  {
    hide Apply, Wrapped, NameText;
    var code := SETUP[10..13];
    InstrAt(q, m.pc, code, 0);
    InstrAt(q, m.pc, code, 1);
    InstrAt(q, m.pc, code, 2);
    DoLoad(ONE_TABLE, q, m, 6, User(ITER));
    var m1 := m.(pc := m.pc + 1, regs := m.regs[6 := ARRAY]);
    LenApplies(m.world);
    DoCompute(ONE_TABLE, q, m1, 7, Len, [6], [ARRAY]);
    var m2 := m1.(pc := m.pc + 2, regs := m1.regs[7 := Number(1.0)]);
    RunsThen(ONE_TABLE, q, m, 1, m1, 1, m2);
    DoStore(ONE_TABLE, q, m2, User(LENGTH), 7);
    m' := StoreVariable(m2, User(LENGTH), Number(1.0));
    RunsThen(ONE_TABLE, q, m, 2, m2, 1, m');
  }

  lemma CodeSlice(q: Program, pc: nat, code: seq<Instr>, i: nat, j: nat)
    requires CodeAt(q, pc, code) && i <= j <= |code|
    ensures CodeAt(q, pc + i, code[i..j])
  {
    hide CodeAt;
    assert code == code[..j] + code[j..];
    CodeSplit(q, pc, code[..j], code[j..]);
    assert code[..j] == code[..i] + code[i..j];
    CodeSplit(q, pc, code[..i], code[i..j]);
  }

  lemma SetupParts(q: Program)
    requires CodeAt(q, 0, SETUP)
    ensures CodeAt(q, 0, SETUP[..2]) && CodeAt(q, 2, SETUP[2..6]) && CodeAt(q, 6, SETUP[6..8])
    ensures CodeAt(q, 8, SETUP[8..10]) && CodeAt(q, 10, SETUP[10..13])
  {
    hide CodeAt, NameText;
    CodeSlice(q, 0, SETUP, 0, 2);
    CodeSlice(q, 0, SETUP, 2, 6);
    CodeSlice(q, 0, SETUP, 6, 8);
    CodeSlice(q, 0, SETUP, 8, 10);
    CodeSlice(q, 0, SETUP, 10, 13);
  }

  lemma ValuesStored(q: Program) returns (m': State)
    requires CodeAt(q, 0, SETUP[..2]) && CodeAt(q, 2, SETUP[2..6])
    ensures Runs(ONE_TABLE, q, Initial(EMPTY), 6, m') && m'.Running? && m'.pc == 6 && m'.hidden == map[]
    ensures m'.world == World(map[ITER := ARRAY], HEAP, [])
  {
    hide Apply, Wrapped, NameText, CodeAt;
    assert SETUP[..2] == [Compute(0, Constant(Number(5.0)), []), StoreVar(User(ITER), 0)];
    var m := Initial(EMPTY);
    StoreConstant(ONE_TABLE, q, m, 0, Number(5.0), ITER);
    var m1 := Running(2, map[0 := Number(5.0)], map[], World(map[ITER := Number(5.0)], map[], []));
    m' := ArrayStored(q, m1);
    RunsThen(ONE_TABLE, q, m, 2, m1, 4, m');
  }

  lemma NamesStored(q: Program, m: State) returns (m': State)
    requires m.Running? && m.pc == 6 && CodeAt(q, 6, SETUP[6..8]) && CodeAt(q, 8, SETUP[8..10])
    ensures Runs(ONE_TABLE, q, m, 4, m') && m'.Running? && m'.pc == 10 && m'.hidden == m.hidden
    ensures m'.world == BindVar(BindVar(m.world, INDEX, Number(0.0)), ITEM, Nil)
  {
    hide Apply, Wrapped, NameText, CodeAt;
    assert SETUP[6..8] == [Compute(4, Constant(Number(0.0)), []), StoreVar(User(INDEX), 4)];
    assert SETUP[8..10] == [Compute(5, Constant(Nil), []), StoreVar(User(ITEM), 5)];
    StoreConstant(ONE_TABLE, q, m, 4, Number(0.0), INDEX);
    var m1 := m.(pc := 8, regs := m.regs[4 := Number(0.0)], world := BindVar(m.world, INDEX, Number(0.0)));
    StoreConstant(ONE_TABLE, q, m1, 5, Nil, ITEM);
    m' := m1.(pc := 10, regs := m1.regs[5 := Nil], world := BindVar(m1.world, ITEM, Nil));
    RunsThen(ONE_TABLE, q, m, 2, m1, 2, m');
  }

  lemma SetupRuns(q: Program) returns (m': State)
    requires CodeAt(q, 0, SETUP)
    ensures Runs(ONE_TABLE, q, Initial(EMPTY), 13, m') && Looping(m', 13, 0.0)
  {
    hide Apply, Wrapped, NameText, CodeAt, Runs;
    TextsDiffer();
    SetupParts(q);
    var m1 := ValuesStored(q);
    var m2 := NamesStored(q, m1);
    RunsThen(ONE_TABLE, q, Initial(EMPTY), 6, m1, 4, m2);
    m' := LengthStored(q, m2);
    RunsThen(ONE_TABLE, q, Initial(EMPTY), 10, m2, 3, m');
  }

  lemma TurnParts(q: Program)
    requires CodeAt(q, 13, TURN)
    ensures CodeAt(q, 13, [LoadVar(8, User(INDEX)), LoadVar(9, User(LENGTH))])
    ensures CodeAt(q, 17, [LoadVar(11, User(ITER)), LoadVar(12, User(INDEX))])
  {
    hide NameText, CodeAt;
    assert TURN[..2] == [LoadVar(8, User(INDEX)), LoadVar(9, User(LENGTH))];
    assert TURN[4..6] == [LoadVar(11, User(ITER)), LoadVar(12, User(INDEX))];
    CodeSlice(q, 13, TURN, 0, 2);
    CodeSlice(q, 13, TURN, 4, 6);
  }

  lemma TestRuns(q: Program, m: State, index: real) returns (m': State)
    requires CodeAt(q, 13, TURN) && Looping(m, 13, index)
    ensures Runs(ONE_TABLE, q, m, 4, m') && Looping(m', if index < 1.0 then 17 else 28, index)
  {
    hide Apply, Wrapped, NameText;
    InstrAt(q, 13, TURN, 2);
    InstrAt(q, 13, TURN, 3);
    TurnParts(q);
    LoadTwo(ONE_TABLE, q, m, 8, INDEX, 9, LENGTH);
    var m1 := m.(pc := 15, regs := m.regs[8 := Number(index)][9 := Number(1.0)]);
    ApplyLess(ONE_TABLE, index, 1.0, m.world);
    DoCompute(ONE_TABLE, q, m1, 10, Compare(Less), [8, 9], [Number(index), Number(1.0)]);
    var m2 := m1.(pc := 16, regs := m1.regs[10 := Bool(index < 1.0)]);
    RunsThen(ONE_TABLE, q, m, 2, m1, 1, m2);
    DoJumpIf(ONE_TABLE, q, m2, 10, false, 28);
    m' := m2.(pc := if index < 1.0 then 17 else 28);
    RunsThen(ONE_TABLE, q, m, 3, m2, 1, m');
  }

  lemma ItemRuns(q: Program, m: State) returns (m': State)
    requires CodeAt(q, 13, TURN) && Looping(m, 17, 0.0)
    ensures Runs(ONE_TABLE, q, m, 5, m') && Looping(m', 27, 0.0)
  {
    hide Apply, Wrapped, NameText;
    TextsDiffer();
    InstrAt(q, 13, TURN, 6);
    InstrAt(q, 13, TURN, 7);
    InstrAt(q, 13, TURN, 8);
    TurnParts(q);
    LoadTwo(ONE_TABLE, q, m, 11, ITER, 12, INDEX);
    var m1 := m.(pc := 19, regs := m.regs[11 := ARRAY][12 := Number(0.0)]);
    IndexApplies(m.world);
    DoCompute(ONE_TABLE, q, m1, 13, Index, [11, 12], [ARRAY, Number(0.0)]);
    var m2 := m1.(pc := 20, regs := m1.regs[13 := Number(1.0)]);
    RunsThen(ONE_TABLE, q, m, 2, m1, 1, m2);
    DoAssign(ONE_TABLE, q, m2, User(ITEM), 13);
    var m3 := m2.(pc := 21, world := BindVar(m2.world, ITEM, Number(1.0)));
    RunsThen(ONE_TABLE, q, m, 3, m2, 1, m3);
    DoJump(ONE_TABLE, q, m3, 27);
    m' := m3.(pc := 27);
    RunsThen(ONE_TABLE, q, m, 4, m3, 1, m');
  }

  lemma StepRuns(q: Program, m: State) returns (m': State)
    requires CodeAt(q, 22, STEP) && Looping(m, 27, 0.0)
    ensures Runs(ONE_TABLE, q, m, 6, m') && Looping(m', 13, 1.0)
  {
    hide Apply, Wrapped, NameText;
    TextsDiffer();
    InstrAt(q, 22, STEP, 0);
    InstrAt(q, 22, STEP, 1);
    InstrAt(q, 22, STEP, 2);
    InstrAt(q, 22, STEP, 3);
    InstrAt(q, 22, STEP, 4);
    InstrAt(q, 22, STEP, 5);
    DoJump(ONE_TABLE, q, m, 22);
    var m1 := m.(pc := 22);
    DoLoad(ONE_TABLE, q, m1, 14, User(INDEX));
    var m2 := m1.(pc := 23, regs := m1.regs[14 := Number(0.0)]);
    RunsThen(ONE_TABLE, q, m, 1, m1, 1, m2);
    ApplyConstant(ONE_TABLE, Number(1.0), m.world);
    DoCompute(ONE_TABLE, q, m2, 15, Constant(Number(1.0)), [], []);
    var m3 := m2.(pc := 24, regs := m2.regs[15 := Number(1.0)]);
    RunsThen(ONE_TABLE, q, m, 2, m2, 1, m3);
    ApplyAdd(ONE_TABLE, 0.0, 1.0, m.world);
    DoCompute(ONE_TABLE, q, m3, 16, Arithmetic(Add), [14, 15], [Number(0.0), Number(1.0)]);
    var m4 := m3.(pc := 25, regs := m3.regs[16 := Number(1.0)]);
    RunsThen(ONE_TABLE, q, m, 3, m3, 1, m4);
    DoAssign(ONE_TABLE, q, m4, User(INDEX), 16);
    var m5 := m4.(pc := 26, world := BindVar(m4.world, INDEX, Number(1.0)));
    RunsThen(ONE_TABLE, q, m, 4, m4, 1, m5);
    DoJump(ONE_TABLE, q, m5, 13);
    m' := m5.(pc := 13);
    RunsThen(ONE_TABLE, q, m, 5, m5, 1, m');
  }

  lemma PrintRuns(q: Program, m: State) returns (m': State)
    requires CodeAt(q, 28, LAST) && Looping(m, 28, 1.0)
    ensures Runs(ONE_TABLE, q, m, 2, m') && m'.Running? && m'.pc == 30 && m'.world.output == [ARRAY]
  {
    hide Apply, Wrapped, NameText;
    InstrAt(q, 28, LAST, 0);
    InstrAt(q, 28, LAST, 1);
    DoLoad(ONE_TABLE, q, m, 17, User(ITER));
    var m1 := m.(pc := 29, regs := m.regs[17 := ARRAY]);
    DoPrint(ONE_TABLE, q, m1, 17);
    m' := m1.(pc := 30, world := Emit(m1.world, ARRAY));
    RunsThen(ONE_TABLE, q, m, 1, m1, 1, m');
  }

  lemma CodeParts(q: Program)
    requires q.code == SETUP + TURN + STEP + LAST
    ensures CodeAt(q, 0, SETUP) && CodeAt(q, 13, TURN) && CodeAt(q, 22, STEP) && CodeAt(q, 28, LAST)
  {
    assert CodeAt(q, 0, SETUP + TURN + STEP + LAST);
    CodeSplit(q, 0, SETUP + TURN + STEP, LAST);
    CodeSplit(q, 0, SETUP + TURN, STEP);
    CodeSplit(q, 0, SETUP, TURN);
  }

  lemma WholeRun(q: Program) returns (m': State)
    requires CodeAt(q, 0, SETUP) && CodeAt(q, 13, TURN) && CodeAt(q, 22, STEP) && CodeAt(q, 28, LAST)
    ensures Runs(ONE_TABLE, q, Initial(EMPTY), 34, m') && m'.Running? && m'.pc == 30 && m'.world.output == [ARRAY]
  {
    hide Looping, Runs, CodeAt, Wrapped;
    var m := Initial(EMPTY);
    var m1 := SetupRuns(q);
    var m2 := TestRuns(q, m1, 0.0);
    RunsThen(ONE_TABLE, q, m, 13, m1, 4, m2);
    var m3 := ItemRuns(q, m2);
    RunsThen(ONE_TABLE, q, m, 17, m2, 5, m3);
    var m4 := StepRuns(q, m3);
    RunsThen(ONE_TABLE, q, m, 22, m3, 6, m4);
    var m5 := TestRuns(q, m4, 1.0);
    RunsThen(ONE_TABLE, q, m, 28, m4, 4, m5);
    m' := PrintRuns(q, m5);
    RunsThen(ONE_TABLE, q, m, 32, m5, 2, m');
  }

  /** The machine with one table of variables ends after 34 steps and has printed the array. */
  lemma MachinePrintsArray()
    ensures
      var q := Renamed(Lower(PROGRAM));
      var m := Steps(Wrapped(ARRAYS, MADE), q, Initial(EMPTY), 34);
      m.Running? && m.pc == |q.code| && m.world.output == [ARRAY]
  {
    hide Wrapped, CodeAt, Lower, Renamed, Steps;
    var q := Renamed(Lower(PROGRAM));
    CodeIs();
    CodeParts(q);
    var m := WholeRun(q);
  }

  // ------------------------------------------------------------------------ the result

  lemma ProgramSerials()
    ensures Serials(PROGRAM) == 3 && Made(0, Serials(PROGRAM)) == MADE
  {
    hide StmtEnd;
    LetCode();
    LoopEndIs();
    var at, end := Place(28, 17, 3, 0), StmtEnd(Print(Variable(ITER)), Place(28, 17, 3, 0));
    PrintEnd(at);
    assert StmtsEnd(Empty, end) == end;
    assert StmtsEnd(REST.tail, at) == end;
    assert StmtsEnd(REST, Place(2, 1, 0, 0)) == end;
    assert StmtsEnd(PROGRAM, Start) == end;
  }

  lemma PrintEnd(at: Place)
    ensures StmtEnd(Print(Variable(ITER)), at).syns == at.syns
  {
  }

  /** The user's variable has the name of the variable that holds the array of the loop. */
  lemma NotSeparated()
    ensures !Separated(Lower(PROGRAM))
  {
    hide ProgramUsers, Lower, Serials, StmtsCode, StmtCode, StmtEnd;
    ProgramSerials();
    SeparatedExactly(PROGRAM);
    UsesIter();
    assert Reserved("__for_in_iter", 0, 3) by {
      assert "__" + "for_in_iter" == "__for_in_iter";
    }
  }

  lemma UsesIter()
    ensures ITER in ProgramUsers(Lower(PROGRAM))
  {
    hide Lower, UsersOf, TableUsers, ForInSetup, ForInTest, ForInIncrement;
    var code := Lower(PROGRAM).code;
    LoweredCode();
    assert code[1] == StoreVar(User(ITER), 0);
    StreamUser(code, 1);
  }

  lemma ArraysPlain()
    ensures CalleesPlain(ARRAYS, MADE) && Plain(EMPTY, MADE)
  {
    hide Spells;
  }

  /** A run of the one-table machine that has printed `v` does not end as a source run with other output. */
  lemma EndsOtherwise(rt: Runtime, p: Program, r: Outcome, m: State, n: nat, k: nat)
    requires r.Normal? && m.Running?
    requires
      var t := Steps(rt, Renamed(p), m, k);
      t.Running? && t.pc == |p.code| && t.world.output != r.world.output
    ensures !EndsInOneTable(p, r, Steps(rt, Renamed(p), m, n), MADE)
  {
    hide Steps, SameWorld;
    var t := Steps(rt, Renamed(p), m, n);
    if EndsInOneTable(p, r, t, MADE) {
      HaltsOnce(rt, Renamed(p), m, n, k);
      OutputKept(r.world, t.world);
    }
  }

  lemma StatementsOk()
    ensures StmtOk(PROGRAM.head, false) && StmtOk(LOOP, false) && StmtOk(REST.tail.head, false)
  {
    assert StmtOk(Block(Empty), true);
  }

  lemma ProgramOk()
    ensures StmtsOk(PROGRAM, false)
  {
    hide StmtOk;
    StatementsOk();
    assert StmtsOk(REST.tail, false);
    assert StmtsOk(REST, false);
  }

  lemma OutputsDiffer()
    ensures [ARRAY] != [Number(5.0)]
  {
    assert [ARRAY][0] != [Number(5.0)][0];
  }

  /** No run of the one-table machine ends as the source does. */
  lemma NeverEndsAlike(n: nat)
    ensures
      var r, q := ExecAll(ARRAYS, PROGRAM, EMPTY, 1), Renamed(Lower(PROGRAM));
      r.Normal? && !EndsInOneTable(Lower(PROGRAM), r, Steps(Wrapped(ARRAYS, MADE), q, Initial(EMPTY), n), MADE)
  {
    hide *;
    SourcePrintsNumber();
    MachinePrintsArray();
    InitialState(EMPTY);
    OutputsDiffer();
    EndsOtherwise(Wrapped(ARRAYS, MADE), Lower(PROGRAM), ExecAll(ARRAYS, PROGRAM, EMPTY, 1), Initial(EMPTY), n, 34);
  }

  /** All that `OneTablePreserved` asks for holds of this run except `Separated`, and its conclusion
      fails: the source prints the number, no run of the one-table machine ends with that output. */
  lemma MeaningLost(n: nat)
    ensures StmtsOk(PROGRAM, false) && !Separated(Lower(PROGRAM))
    ensures CalleesPlain(ARRAYS, Made(0, Serials(PROGRAM))) && Plain(EMPTY, Made(0, Serials(PROGRAM)))
    ensures
      var r, q, made := ExecAll(ARRAYS, PROGRAM, EMPTY, 1), Renamed(Lower(PROGRAM)), Made(0, Serials(PROGRAM));
      Finishes(r) && !EndsInOneTable(Lower(PROGRAM), r, Steps(Wrapped(ARRAYS, made), q, Initial(EMPTY), n), made)
  {
    hide *;
    ProgramOk();
    NotSeparated();
    ProgramSerials();
    ArraysPlain();
    NeverEndsAlike(n);
    NormalFinishes(ExecAll(ARRAYS, PROGRAM, EMPTY, 1));
  }

  lemma NormalFinishes(r: Outcome)
    requires r.Normal?
    ensures Finishes(r)
  {
  }

  lemma OutputKept(w: World, t: World)
    requires SameWorld(w, t, MADE)
    ensures t.output == w.output
  {
    hide Spells;
  }
}
