/** Laws of the operations that the reference meaning and the machine have in common.

    The lowering theorems hold whatever these operations do; here it is said what they do, by laws
    between them and by the messages that a compound assignment ends with.
 */
module LanguageLaws {
  import opened Wrappers
  import opened Runtime
  import opened Ast
  import opened Semantics

  /** A binary operation on two values. */
  function Of(rt: Runtime, prim: Prim, a: Value, b: Value, w: World): Effect {
    Apply(rt, prim, [a, b], w)
  }

  /** Only nil and false are falsy, and two negations give the truth of a value. */
  lemma Negation(rt: Runtime, v: Value, w: World)
    ensures Truthy(v) <==> v != Nil && v != Bool(false)
    ensures Apply(rt, Not, [v], w) == Done(Bool(v == Nil || v == Bool(false)), w)
    ensures Apply(rt, Not, [Bool(v == Nil || v == Bool(false))], w) == Done(Bool(Truthy(v)), w)
  {
  }

  /** Equality tells any two values apart, and inequality is its negation. */
  lemma Equality(rt: Runtime, a: Value, b: Value, w: World)
    ensures Of(rt, Equal, a, b, w) == Done(Bool(true), w) <==> a == b
    ensures Of(rt, Equal, a, b, w) == Done(Bool(false), w) <==> a != b
    ensures Of(rt, NotEqual, a, b, w) == Done(Bool(true), w) <==> a != b
    ensures Of(rt, NotEqual, a, b, w) == Done(Bool(false), w) <==> a == b
  {
  }

  /** Of two numbers exactly one of less, equal and greater holds; the other comparisons and the
      swapped operands follow. */
  lemma Order(rt: Runtime, x: real, y: real, w: World)
    ensures
      var less := Of(rt, Compare(Less), Number(x), Number(y), w) == Done(Bool(true), w);
      var greater := Of(rt, Compare(Greater), Number(x), Number(y), w) == Done(Bool(true), w);
      && (less <==> x < y) && (greater <==> y < x)
      && Of(rt, Compare(LessEqual), Number(x), Number(y), w) == Done(Bool(!greater), w)
      && Of(rt, Compare(GreaterEqual), Number(x), Number(y), w) == Done(Bool(!less), w)
      && Of(rt, Compare(Greater), Number(y), Number(x), w) == Done(Bool(less), w)
      && !(less && greater)
      && (!less && !greater <==> Of(rt, Equal, Number(x), Number(y), w) == Done(Bool(true), w))
  {
  }

  /** Subtraction undoes addition, which commutes; negation is subtraction from zero. */
  lemma Sums(rt: Runtime, x: real, y: real, w: World)
    ensures
      var sum := Of(rt, Arithmetic(Add), Number(x), Number(y), w);
      && sum.Done? && sum.world == w && sum == Of(rt, Arithmetic(Add), Number(y), Number(x), w)
      && Of(rt, Arithmetic(Subtract), sum.value, Number(y), w) == Done(Number(x), w)
    ensures Of(rt, Arithmetic(Add), Number(x), Number(0.0), w) == Done(Number(x), w)
    ensures Apply(rt, Negate, [Number(x)], w) == Of(rt, Arithmetic(Subtract), Number(0.0), Number(x), w)
  {
  }

  /** Division undoes multiplication, which commutes. */
  lemma Products(rt: Runtime, x: real, y: real, w: World)
    ensures
      var product := Of(rt, Arithmetic(Multiply), Number(x), Number(y), w);
      && product.Done? && product.world == w && product == Of(rt, Arithmetic(Multiply), Number(y), Number(x), w)
      && (y != 0.0 ==> Of(rt, Arithmetic(Divide), product.value, Number(y), w) == Done(Number(x), w))
    ensures Of(rt, Arithmetic(Multiply), Number(x), Number(1.0), w) == Done(Number(x), w)
  {
    hide Of;
    ProductOf(rt, x, y, w);
    ProductOf(rt, y, x, w);
    ProductOf(rt, x, 1.0, w);
    ProductLaws(x, y);
    if y != 0.0 {
      QuotientOf(rt, Of(rt, Arithmetic(Multiply), Number(x), Number(y), w).value.n, y, w);
    }
  }

  lemma ProductOf(rt: Runtime, x: real, y: real, w: World)
    ensures
      var r := Of(rt, Arithmetic(Multiply), Number(x), Number(y), w);
      r.Done? && r.world == w && r.value.Number? && r.value.n == x * y
  {
  }

  lemma QuotientOf(rt: Runtime, x: real, y: real, w: World)
    requires y != 0.0
    ensures
      var r := Of(rt, Arithmetic(Divide), Number(x), Number(y), w);
      r.Done? && r.world == w && r.value.Number? && r.value.n == x / y
  {
  }

  lemma ProductLaws(x: real, y: real)
    ensures x * y == y * x && x * 1.0 == x && (y != 0.0 ==> x * y / y == x)
  {
  }

  /** When arithmetic fails: on a division by zero and on anything but numbers, texts to be joined apart. */
  lemma ArithmeticFails(rt: Runtime, op: ArithmeticOp, a: Value, b: Value, w: World)
    ensures
      var r := Of(rt, Arithmetic(op), a, b, w);
      && (r.Done? <==>
           || (a.Number? && b.Number? && (op == Divide ==> b.n != 0.0))
           || (a.Text? && b.Text? && op == Add))
      && (r.Trap? ==> r.world == w)
      && (r.Done? && a.Text? && b.Text? ==> r == Done(Text(a.s + b.s), w))
  {
  }

  /** A variable holds what was stored last, and no other variable changes. */
  lemma Variables(w: World, x: string, v: Value, y: string)
    ensures ReadVar(BindVar(w, x, v), x) == Done(v, BindVar(w, x, v))
    ensures y != x && ReadVar(w, y).Done? ==> ReadVar(BindVar(w, x, v), y) == Done(ReadVar(w, y).value, BindVar(w, x, v))
    ensures y != x && ReadVar(w, y).Trap? ==> ReadVar(BindVar(w, x, v), y).Trap?
    ensures ReadVar(w, x).Done? ==> ReadVar(w, x).world == w && UpdateVar(w, x, v) == Done(v, BindVar(w, x, v))
    ensures ReadVar(w, x).Trap? ==> ReadVar(w, x).world == w && UpdateVar(w, x, v) == ReadVar(w, x)
    ensures BindVar(w, x, v).heap == w.heap && BindVar(w, x, v).output == w.output
  {
  }

  /** Printing adds one value at the end of the output and changes nothing else. */
  lemma Printing(w: World, v: Value)
    ensures Emit(w, v).output == w.output + [v] && Emit(w, v).vars == w.vars && Emit(w, v).heap == w.heap
  {
  }

  // ------------------------------------------------------------- compound assignments

  predicate IsSign(op: ArithmeticOp, sign: string) {
    match op
    case Add => sign == "+="
    case Subtract => sign == "-="
    case Multiply => sign == "*="
    case Divide => sign == "/="
  }

  /** The number that `x op y` gives. */
  predicate Combines(op: ArithmeticOp, x: real, y: real, z: real) {
    match op
    case Add => z - y == x
    case Subtract => z + y == x
    case Multiply => z == x * y
    case Divide => y != 0.0 && z * y == x
  }

  /** How a compound assignment to a variable ends: with the messages of its checks, made before and
      after the right-hand side, or with the combined number stored in the variable. */
  lemma CompoundEnds(rt: Runtime, op: ArithmeticOp, sign: string, name: string, value: Expr, w: World)
    requires IsSign(op, sign)
    ensures
      var r := EvalExpr(rt, CompoundAssign(op, name, value), w);
      var v := EvalExpr(rt, value, w);
      if name !in w.vars then r.Faults? && r.world == w
      else if !w.vars[name].Number? then r == Faults("`" + sign + "` expects number variable", w)
      else if v.Faults? then r == Faults(v.message, v.world)
      else if v.Unmatched? then r == Unmatched
      else if !v.value.Number? then r == Faults("`" + sign + "` expects number value", v.world)
      else if op == Divide && v.value.n == 0.0 then r.Faults? && r.world == v.world
      else if name !in v.world.vars then r.Faults? && r.world == v.world
      else
        && r.Yields? && r.value.Number? && Combines(op, w.vars[name].n, v.value.n, r.value.n)
        && r.world == v.world.(vars := v.world.vars[name := r.value])
  {
    hide Apply, IsSign, Combines;
    if name in w.vars {
      CompoundChecks(rt, op, sign, "variable", w.vars[name], value, w);
    }
  }

  /** The same for the value of the element or field that is assigned to. */
  lemma CompoundChecks(
    rt: Runtime, op: ArithmeticOp, sign: string, role: string, old': Value, value: Expr, w: World
  )
    requires IsSign(op, sign)
    ensures
      var r := EvalCompound(rt, op, role, old', value, w);
      var v := EvalExpr(rt, value, w);
      if !old'.Number? then r == Faults("`" + sign + "` expects number " + role, w)
      else if v.Faults? then r == Faults(v.message, v.world)
      else if v.Unmatched? then r == Unmatched
      else if !v.value.Number? then r == Faults("`" + sign + "` expects number value", v.world)
      else if op == Divide && v.value.n == 0.0 then r.Faults? && r.world == v.world
      else
        && r.Yields? && r.world == v.world && r.value.Number?
        && Combines(op, old'.n, v.value.n, r.value.n)
  {
    hide EvalExpr, Combines, Apply, CompoundMessage, IsSign;
    Messages(op, sign, role);
    Messages(op, sign, "value");
    var v := EvalExpr(rt, value, w);
    Asserted(rt, CompoundMessage(op, role), old', w);
    if old'.Number? && v.Yields? {
      Asserted(rt, CompoundMessage(op, "value"), v.value, v.world);
      if v.value.Number? {
        Combined(rt, op, old'.n, v.value.n, v.world);
      }
    }
  }

  lemma Asserted(rt: Runtime, message: string, v: Value, w: World)
    ensures Apply(rt, AssertNumber(message), [v], w) == if v.Number? then Done(v, w) else Trap(message, w)
  {
  }

  lemma Combined(rt: Runtime, op: ArithmeticOp, x: real, y: real, w: World)
    ensures
      var r := Apply(rt, Arithmetic(op), [Number(x), Number(y)], w);
      if op == Divide && y == 0.0 then r.Trap? && r.world == w
      else r.Done? && r.world == w && r.value.Number? && Combines(op, x, y, r.value.n)
  {
  }

  lemma Messages(op: ArithmeticOp, sign: string, role: string)
    requires IsSign(op, sign)
    ensures CompoundMessage(op, role) == "`" + sign + "` expects number " + role
  {
  }
}
