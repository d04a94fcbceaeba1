/** Values, the world a program acts on, and the meaning of the primitive
    operations that both the source language and the register IR use.

    What the operations on heap objects, calls and allocations do is a
    parameter (a `Runtime` value), so every theorem that quantifies over it
    holds for any behaviour of callees, natives and containers.
 */
module Runtime {
  import opened Wrappers

  datatype List<+T> = Empty | Cons(head: T, tail: List<T>)

  datatype Value =
    | Nil
    | Bool(b: bool)
    | Number(n: real)
    | Text(s: string)
    | Range(start: int, stop: int, step: int)
    | Reference(identity: nat)  // function, array, map or struct: compared by identity
    | Variant(enumName: string, variantName: string, fields: seq<Value>)

  datatype Object =
    | ArrayObject(elements: seq<Value>)
    | MapObject(entries: seq<(Value, Value)>)
    | StructObject(typeName: string, members: seq<(string, Value)>)
    | FunctionObject(functionLabel: string)

  type Heap = map<nat, Object>

  /** Everything a called function can see or change. */
  datatype World = World(vars: map<string, Value>, heap: Heap, output: seq<Value>)

  datatype ArithmeticOp = Add | Subtract | Multiply | Divide

  datatype ComparisonOp = Less | LessEqual | Greater | GreaterEqual

  /** The value-producing operations of the IR, with their immediate operands. */
  datatype Prim =
    | Constant(value: Value)
    | MakeArray
    | MakeMap
    | MakeStruct(typeName: string, fieldNames: seq<string>)
    | MakeVariant(enumName: string, variantName: string)
    | MakeClosure(functionLabel: string, parameters: seq<string>)
    | VariantTag(enumName: string, variantName: string)
    | VariantField(index: nat)
    | Call
    | NativeCall(name: string)
    | Index
    | AssignIndex
    | Field(name: string)
    | AssignField(name: string)
    | Len
    | AssertArray
    | AssertNumber(message: string)
    | Negate
    | Not
    | Arithmetic(op: ArithmeticOp)
    | Compare(cmp: ComparisonOp)
    | Equal
    | NotEqual

  datatype Effect =
    | Done(value: Value, world: World)
    | Trap(message: string, world: World)

  /** The parts of the virtual machine that the theorems leave open. */
  datatype Runtime = Runtime(
    primitive: (Prim, seq<Value>, World) -> Effect,
    length: (Heap, Value) -> Option<nat>,
    index: (Heap, Value, Value) -> Option<Value>,
    field: (Heap, Value, string) -> Option<Value>
  )

  predicate Truthy(v: Value) {
    match v
    case Nil => false
    case Bool(b) => b
    case _ => true
  }

  /** Runtime equality: structural on immediate values and variants, by identity on objects. */
  predicate ValuesEqual(a: Value, b: Value) {
    a == b
  }

  function Arith(op: ArithmeticOp, a: Value, b: Value): Option<Value> {
    match (op, a, b)
    case (Add, Number(x), Number(y)) => Some(Number(x + y))
    case (Add, Text(x), Text(y)) => Some(Text(x + y))
    case (Subtract, Number(x), Number(y)) => Some(Number(x - y))
    case (Multiply, Number(x), Number(y)) => Some(Number(x * y))
    case (Divide, Number(x), Number(y)) => if y == 0.0 then None else Some(Number(x / y))
    case _ => None
  }

  predicate CompareNumbers(cmp: ComparisonOp, x: real, y: real) {
    match cmp
    case Less => x < y
    case LessEqual => x <= y
    case Greater => x > y
    case GreaterEqual => x >= y
  }

  function Lift(result: Option<Value>, message: string, w: World): Effect {
    match result
    case Some(v) => Done(v, w)
    case None => Trap(message, w)
  }

  /** One primitive applied to its argument values. */
  function Apply(rt: Runtime, prim: Prim, args: seq<Value>, w: World): Effect {
    match prim
    case Constant(v) => Done(v, w)
    case MakeVariant(e, n) => Done(Variant(e, n, args), w)
    case VariantTag(e, n) =>
      if |args| == 1 then
        Done(Bool(args[0].Variant? && args[0].enumName == e && args[0].variantName == n), w)
      else Trap("operand count", w)
    case VariantField(i) =>
      if |args| == 1 && args[0].Variant? && i < |args[0].fields| then Done(args[0].fields[i], w)
      else Trap("variant field", w)
    case Index =>
      if |args| == 2 then Lift(rt.index(w.heap, args[0], args[1]), "index", w) else Trap("operand count", w)
    case Field(name) =>
      if |args| == 1 then Lift(rt.field(w.heap, args[0], name), "field", w) else Trap("operand count", w)
    case Len =>
      if |args| == 1 then
        match rt.length(w.heap, args[0]) {
          case Some(n) => Done(Number(n as real), w)
          case None => Trap("len", w)
        }
      else Trap("operand count", w)
    case AssertNumber(message) =>
      if |args| == 1 && args[0].Number? then Done(args[0], w) else Trap(message, w)
    case Negate =>
      if |args| == 1 && args[0].Number? then Done(Number(-args[0].n), w) else Trap("negate", w)
    case Not =>
      if |args| == 1 then Done(Bool(!Truthy(args[0])), w) else Trap("operand count", w)
    case Arithmetic(op) =>
      if |args| == 2 then Lift(Arith(op, args[0], args[1]), "arithmetic", w) else Trap("operand count", w)
    case Compare(cmp) =>
      if |args| == 2 && args[0].Number? && args[1].Number? then
        Done(Bool(CompareNumbers(cmp, args[0].n, args[1].n)), w)
      else rt.primitive(prim, args, w)
    case Equal =>
      if |args| == 2 then Done(Bool(ValuesEqual(args[0], args[1])), w) else Trap("operand count", w)
    case NotEqual =>
      if |args| == 2 then Done(Bool(!ValuesEqual(args[0], args[1])), w) else Trap("operand count", w)
    case _ => rt.primitive(prim, args, w)
  }

  /** Variable access by resolved name. */
  function ReadVar(w: World, name: string): Effect {
    if name in w.vars then Done(w.vars[name], w) else Trap("undefined variable", w)
  }

  function BindVar(w: World, name: string, v: Value): World {
    w.(vars := w.vars[name := v])
  }

  /** Assignment needs an existing binding; the result is the new world or a trap. */
  function UpdateVar(w: World, name: string, v: Value): Effect {
    if name in w.vars then Done(v, BindVar(w, name, v)) else Trap("undefined variable", w)
  }

  function Emit(w: World, v: Value): World {
    w.(output := w.output + [v])
  }

  // The effects of single operations, for proofs that keep `Apply` folded.

  lemma ApplyConstant(rt: Runtime, v: Value, w: World)
    ensures Apply(rt, Constant(v), [], w) == Done(v, w)
  {
  }

  lemma ApplyEqual(rt: Runtime, a: Value, b: Value, w: World)
    ensures Apply(rt, Equal, [a, b], w) == Done(Bool(ValuesEqual(a, b)), w)
  {
  }

  lemma ApplyTag(rt: Runtime, e: string, n: string, v: Value, w: World)
    ensures Apply(rt, VariantTag(e, n), [v], w) == Done(Bool(v.Variant? && v.enumName == e && v.variantName == n), w)
  {
  }

  lemma ApplyLen(rt: Runtime, v: Value, w: World)
    ensures Apply(rt, Len, [v], w)
         == match rt.length(w.heap, v) { case Some(n) => Done(Number(n as real), w) case None => Trap("len", w) }
  {
  }

  lemma ApplyIndex(rt: Runtime, c: Value, i: Value, w: World)
    ensures Apply(rt, Index, [c, i], w) == Lift(rt.index(w.heap, c, i), "index", w)
  {
  }

  lemma ApplyLess(rt: Runtime, a: real, b: real, w: World)
    ensures Apply(rt, Compare(Less), [Number(a), Number(b)], w) == Done(Bool(a < b), w)
  {
  }

  lemma ApplyAdd(rt: Runtime, a: real, b: real, w: World)
    ensures Apply(rt, Arithmetic(Add), [Number(a), Number(b)], w) == Done(Number(a + b), w)
  {
  }
}
