/** The flow analyses accept every lowered stream: none of their failure exits can be taken. */
module Analysis {
  import opened Runtime
  import opened Ast
  import opened IR
  import opened Lowering
  import opened FunctionTables
  import opened Validity
  import ControlFlowGraph
  import Dominance

  lemma ValidTargets(code: seq<Instr>, registers: nat, functions: nat)
    requires StreamValid(code, registers, |code|, functions)
    ensures ControlFlowGraph.TargetsInRange(code)
  {
    forall i | 0 <= i < |code| && IsJump(code[i]) ensures code[i].target <= |code| {
      assert InstrValid(code[i], registers, |code|, functions);
    }
  }

  /** The graph and the dominance information of a stream, or a failure. */
  ghost predicate Analyzed(code: seq<Instr>, g: ControlFlowGraph.Cfg, info: Dominance.DominanceInfo) {
    ControlFlowGraph.WellFormed(g) && ControlFlowGraph.Adequate(code, g) && Dominance.InfoExact(g, info)
  }

  /** Building the graph and its dominance information fails exactly for a jump out of the stream. */
  method AnalyzeStream(code: seq<Instr>) returns (ok: bool, g: ControlFlowGraph.Cfg, info: Dominance.DominanceInfo)
    ensures ok == ControlFlowGraph.TargetsInRange(code)
    ensures ok ==> Analyzed(code, g, info)
  {
    hide ControlFlowGraph.WellFormed, ControlFlowGraph.Adequate, Dominance.InfoExact, ControlFlowGraph.TargetsInRange;
    info := Dominance.DominanceInfo([], [], [], []);
    ok, g := ControlFlowGraph.Build(code, []);
    if ok {
      var exact;
      exact, info := Dominance.BuildDominanceInfo(g);
    }
  }

  /** The main stream and then the function streams. */
  function StreamOf(p: Program, k: nat): seq<Instr>
    requires k <= |p.functions|
  {
    if k == 0 then p.code else p.functions[k - 1].code
  }

  lemma LoweredTargets(program: List<Stmt>, k: nat)
    requires StmtsOk(program, false) && k <= |Lower(program).functions|
    ensures ControlFlowGraph.TargetsInRange(StreamOf(Lower(program), k))
  {
    hide ControlFlowGraph.TargetsInRange, StreamValid, StmtsCode, StmtsFunctions, StmtsEnd;
    var p := Lower(program);
    LoweredValid(program);
    if k == 0 {
      ValidTargets(p.code, StmtsEnd(program, Start).regs, |p.functions|);
    } else {
      ValidTargets(p.functions[k - 1].code, p.functions[k - 1].registerCount, |p.functions|);
    }
  }

  /** Every stream of a lowered program has a graph and exact dominance information. */
  method AnalyzeLowered(program: List<Stmt>)
    returns (ok: bool, graphs: seq<ControlFlowGraph.Cfg>, infos: seq<Dominance.DominanceInfo>)
    requires StmtsOk(program, false)
    ensures ok
    ensures |graphs| == |infos| == |Lower(program).functions| + 1
    ensures forall k :: 0 <= k < |graphs| ==> Analyzed(StreamOf(Lower(program), k), graphs[k], infos[k])
  {
    hide *;
    ok, graphs, infos := true, [], [];
    var p := Lower(program);
    for k := 0 to |p.functions| + 1
      invariant ok && |graphs| == |infos| == k
      invariant forall j :: 0 <= j < k ==> Analyzed(StreamOf(p, j), graphs[j], infos[j])
    {
      LoweredTargets(program, k);
      var g, info;
      ok, g, info := AnalyzeStream(StreamOf(p, k));
      graphs, infos := graphs + [g], infos + [info];
    }
  }
}
