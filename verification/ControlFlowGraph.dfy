/** Basic blocks of an instruction stream, and their edges.

    The graph is proved adequate: blocks partition the stream, every machine step stays
    inside its block or leaves the block's end along a listed edge, every listed edge is
    one the terminator can take, and the reachable flags are exactly the paths.
 */
module ControlFlowGraph {
  import opened Wrappers
  import opened Runtime
  import opened IR
  import opened Graphs
  import SortedVectors

  datatype Block = Block(
    id: nat, firstInstruction: nat, endInstruction: nat, syntheticExit: bool, reachable: bool,
    predecessors: seq<nat>, successors: seq<nat>)

  datatype Anchor = Anchor(instructionOffset: nat, block: nat, offsetInBlock: nat)

  datatype Cfg = Cfg(
    instructionCount: nat, entryBlock: nat, exitBlock: nat, blocks: seq<Block>, instructionBlocks: seq<nat>,
    dependencyAnchors: seq<Anchor>)

  predicate IsTerminator(i: Instr) {
    i.Jump? || i.JumpIf? || i.ReturnValue?
  }

  predicate TargetsInRange(code: seq<Instr>) {
    forall i :: 0 <= i < |code| && IsJump(code[i]) ==> code[i].target <= |code|
  }

  predicate NoDuplicates(s: seq<nat>) {
    forall i, j :: 0 <= i < j < |s| ==> s[i] != s[j]
  }

  /** The successor lists as a graph. */
  function GraphOf(g: Cfg): Graph {
    Graph(g.entryBlock, SuccessorLists(g.blocks))
  }

  function SuccessorLists(blocks: seq<Block>): (r: seq<seq<nat>>)
    ensures |r| == |blocks| && forall b :: 0 <= b < |blocks| ==> r[b] == blocks[b].successors
  {
    seq(|blocks|, b requires 0 <= b < |blocks| => blocks[b].successors)
  }

  function BlockAtInstruction(instructionBlocks: seq<nat>, instruction: nat, exitBlock: nat): nat
    requires instruction <= |instructionBlocks|
  {
    if instruction == |instructionBlocks| then exitBlock else instructionBlocks[instruction]
  }

  // ------------------------------------------------------------- well-formedness

  predicate ExitOk(g: Cfg) {
    && g.blocks != [] && g.entryBlock < |g.blocks| && g.exitBlock == |g.blocks| - 1
    && var exit := g.blocks[g.exitBlock];
       && exit.id == g.exitBlock && exit.syntheticExit && exit.successors == []
       && exit.firstInstruction == g.instructionCount && exit.endInstruction == g.instructionCount
  }

  /** Where block `id` has to start for the blocks to follow one another. */
  function NextStart(blocks: seq<Block>, id: nat): nat
    requires id <= |blocks|
  {
    if id == 0 then 0 else blocks[id - 1].endInstruction
  }

  predicate RangeOk(g: Cfg, id: nat)
    requires id < |g.blocks|
  {
    var block := g.blocks[id];
    && block.id == id && !block.syntheticExit
    && block.firstInstruction == NextStart(g.blocks, id)
    && block.firstInstruction < block.endInstruction <= g.instructionCount
  }

  predicate RangesOk(g: Cfg)
    requires ExitOk(g)
  {
    && (forall id :: 0 <= id < g.exitBlock ==> RangeOk(g, id))
    && NextStart(g.blocks, g.exitBlock) == g.instructionCount
  }

  predicate MapOk(g: Cfg)
    requires ExitOk(g)
  {
    && |g.instructionBlocks| == g.instructionCount
    && forall i :: 0 <= i < g.instructionCount ==>
         var b := g.instructionBlocks[i];
         b < g.exitBlock && g.blocks[b].firstInstruction <= i < g.blocks[b].endInstruction
  }

  /** The edge lists of one block: no duplicates, in range, and seen from the other end too. */
  predicate BlockEdgesOk(g: Cfg, b: nat)
    requires b < |g.blocks|
  {
    && NoDuplicates(g.blocks[b].successors) && NoDuplicates(g.blocks[b].predecessors)
    && (forall s :: s in g.blocks[b].successors ==> s < |g.blocks| && b in g.blocks[s].predecessors)
    && (forall p :: p in g.blocks[b].predecessors ==> p < |g.blocks| && b in g.blocks[p].successors)
  }

  predicate EdgesOk(g: Cfg) {
    forall b :: 0 <= b < |g.blocks| ==> BlockEdgesOk(g, b)
  }

  ghost predicate ReachableOk(g: Cfg) {
    forall b :: 0 <= b < |g.blocks| ==> (g.blocks[b].reachable <==> Reachable(GraphOf(g), b))
  }

  predicate AnchorOk(g: Cfg, a: Anchor)
    requires ExitOk(g) && MapOk(g)
  {
    && a.instructionOffset <= g.instructionCount
    && a.block == BlockAtInstruction(g.instructionBlocks, a.instructionOffset, g.exitBlock)
    && a.offsetInBlock
       == if a.block == g.exitBlock then 0 else a.instructionOffset - g.blocks[a.block].firstInstruction
  }

  /** Everything that `verify` checks. */
  ghost predicate WellFormed(g: Cfg) {
    && ExitOk(g) && RangesOk(g) && MapOk(g) && EdgesOk(g) && ReachableOk(g)
    && forall a :: a in g.dependencyAnchors ==> AnchorOk(g, a)
  }

  lemma EdgesClosed(g: Cfg)
    requires g.entryBlock < |g.blocks| && EdgesOk(g)
    ensures Closed(GraphOf(g))
  {
    forall b, s | 0 <= b < |g.blocks| && s in g.blocks[b].successors ensures s < |g.blocks| {
      assert BlockEdgesOk(g, b);
    }
  }

  // ---------------------------------------------------------------- reachability

  /** What the worklist loop keeps: pending and visited blocks are reachable, and every
      successor of a visited block is pending or visited. */
  ghost predicate Frontier(g: Graph, visited: seq<bool>, pending: seq<nat>) {
    && |visited| == |g.successors|
    && (forall b :: b in pending ==> b < |visited| && Reachable(g, b))
    && (forall b :: 0 <= b < |visited| && visited[b] ==> Reachable(g, b))
    && (g.entry in pending || (g.entry < |visited| && visited[g.entry]))
    && forall a: nat, b: nat :: a < |visited| && visited[a] && Edge(g, a, b) ==> b < |visited| && (b in pending || visited[b])
  }

  function Unvisited(visited: seq<bool>): set<nat> {
    set b: nat | b < |visited| && !visited[b]
  }

  lemma FrontierStart(g: Graph, visited: seq<bool>)
    requires Closed(g) && visited == seq(|g.successors|, _ => false)
    ensures Frontier(g, visited, [g.entry])
  {
    EntryReachable(g);
  }

  lemma FrontierLast(g: Graph, visited: seq<bool>, pending: seq<nat>)
    requires Frontier(g, visited, pending) && pending != []
    ensures pending[|pending| - 1] < |visited| && Reachable(g, pending[|pending| - 1])
  {
    hide Reachable;
  }

  /** Dropping a block that has been visited. */
  lemma FrontierDrop(g: Graph, visited: seq<bool>, pending: seq<nat>, block: nat)
    requires Frontier(g, visited, pending + [block]) && block < |visited| && visited[block]
    ensures Frontier(g, visited, pending)
  {
    hide Reachable, Edge;
    assert forall b :: b in pending ==> b in pending + [block];
  }

  /** Expanding a block that has not. */
  lemma FrontierExpand(g: Graph, visited: seq<bool>, pending: seq<nat>, block: nat)
    requires Closed(g) && Frontier(g, visited, pending + [block]) && block < |visited| && !visited[block]
    ensures Frontier(g, visited[block := true], pending + g.successors[block])
    ensures |Unvisited(visited[block := true])| < |Unvisited(visited)|
  {
    hide Reachable;
    assert block in pending + [block];
    forall s | s in g.successors[block] ensures s < |visited| && Reachable(g, s) {
      ReachableStep(g, block, s);
    }
    assert forall b :: b in pending ==> b in pending + [block];
    assert Unvisited(visited) == Unvisited(visited[block := true]) + {block};
  }

  lemma FrontierEnd(g: Graph, visited: seq<bool>)
    requires Closed(g) && Frontier(g, visited, [])
    ensures forall b :: 0 <= b < |visited| ==> (visited[b] <==> Reachable(g, b))
  {
    var closed := set b: nat | b < |visited| && visited[b];
    forall b | 0 <= b < |visited| && Reachable(g, b) ensures visited[b] {
      var p :| PathTo(g, p, b);
      ClosureCovers(g, closed, p, b);
    }
  }

  /** The worklist loop: blocks may be pending several times, each is expanded once. */
  method FindReachable(g: Graph) returns (visited: seq<bool>)
    requires Closed(g)
    ensures |visited| == |g.successors|
    ensures forall b :: 0 <= b < |visited| ==> (visited[b] <==> Reachable(g, b))
  {
    hide Reachable, Unvisited;
    var pending: seq<nat> := [g.entry];
    visited := seq(|g.successors|, _ => false);
    FrontierStart(g, visited);
    while pending != []
      invariant Frontier(g, visited, pending)
      decreases |Unvisited(visited)|, |pending|
    {
      hide Frontier;
      var last := |pending| - 1;
      var block := pending[last];
      FrontierLast(g, visited, pending);
      assert pending == pending[..last] + [block];
      pending := pending[..last];
      if visited[block] {
        FrontierDrop(g, visited, pending, block);
      } else {
        FrontierExpand(g, visited, pending, block);
        visited := visited[block := true];
        pending := pending + g.successors[block];
      }
    }
    FrontierEnd(g, visited);
  }

  // ----------------------------------------------------------------- verification

  method HasDuplicates(s: seq<nat>) returns (found: bool)
    ensures found == !NoDuplicates(s)
  {
    var seen: set<nat> := {};
    for i := 0 to |s|
      invariant seen == set k | 0 <= k < i :: s[k]
      invariant NoDuplicates(s[..i])
    {
      if s[i] in seen {
        ghost var k :| 0 <= k < i && s[k] == s[i];
        return true;
      }
      seen := seen + {s[i]};
    }
    assert s[..|s|] == s;
    found := false;
  }

  method VerifyRanges(g: Cfg) returns (ok: bool)
    requires ExitOk(g)
    ensures ok == (RangesOk(g) && MapOk(g))
  {
    var nextInstruction := 0;
    for id := 0 to g.exitBlock
      invariant nextInstruction == NextStart(g.blocks, id)
      invariant forall k :: 0 <= k < id ==> RangeOk(g, k)
    {
      var block := g.blocks[id];
      if block.id != id || block.syntheticExit || block.firstInstruction != nextInstruction
        || block.firstInstruction >= block.endInstruction || block.endInstruction > g.instructionCount
      {
        assert !RangeOk(g, id);
        return false;
      }
      nextInstruction := block.endInstruction;
    }
    if nextInstruction != g.instructionCount || |g.instructionBlocks| != g.instructionCount {
      return false;
    }
    for i := 0 to g.instructionCount
      invariant forall k :: 0 <= k < i ==>
        var b := g.instructionBlocks[k];
        b < g.exitBlock && g.blocks[b].firstInstruction <= k < g.blocks[b].endInstruction
    {
      var b := g.instructionBlocks[i];
      if b >= g.exitBlock || i < g.blocks[b].firstInstruction || i >= g.blocks[b].endInstruction {
        return false;
      }
    }
    ok := true;
  }

  method VerifyEdges(g: Cfg) returns (ok: bool)
    ensures ok == EdgesOk(g)
  {
    for b := 0 to |g.blocks|
      invariant forall k :: 0 <= k < b ==> BlockEdgesOk(g, k)
    {
      var block := g.blocks[b];
      var duplicates := HasDuplicates(block.successors);
      if !duplicates {
        duplicates := HasDuplicates(block.predecessors);
      }
      if duplicates {
        assert !BlockEdgesOk(g, b);
        return false;
      }
      for i := 0 to |block.successors|
        invariant forall k :: 0 <= k < i ==>
          var s := block.successors[k];
          s < |g.blocks| && b in g.blocks[s].predecessors
      {
        var s := block.successors[i];
        if s >= |g.blocks| || b !in g.blocks[s].predecessors {
          assert s in block.successors && !BlockEdgesOk(g, b);
          return false;
        }
      }
      for i := 0 to |block.predecessors|
        invariant forall k :: 0 <= k < i ==>
          var p := block.predecessors[k];
          p < |g.blocks| && b in g.blocks[p].successors
      {
        var p := block.predecessors[i];
        if p >= |g.blocks| || b !in g.blocks[p].successors {
          assert p in block.predecessors && !BlockEdgesOk(g, b);
          return false;
        }
      }
      assert BlockEdgesOk(g, b);
    }
    ok := true;
  }

  /** Accepts exactly the well-formed graphs. */
  method Verify(g: Cfg) returns (ok: bool)
    ensures ok == WellFormed(g)
  {
    if g.blocks == [] || g.entryBlock >= |g.blocks| || g.exitBlock >= |g.blocks| || g.exitBlock != |g.blocks| - 1 {
      return false;
    }
    var exit := g.blocks[g.exitBlock];
    if exit.id != g.exitBlock || !exit.syntheticExit || exit.firstInstruction != g.instructionCount
      || exit.endInstruction != g.instructionCount || exit.successors != []
    {
      return false;
    }
    ok := VerifyRanges(g);
    if !ok {
      return;
    }
    ok := VerifyEdges(g);
    if !ok {
      return;
    }
    EdgesClosed(g);
    var reachable := FindReachable(GraphOf(g));
    for b := 0 to |g.blocks|
      invariant forall k :: 0 <= k < b ==> (g.blocks[k].reachable <==> Reachable(GraphOf(g), k))
    {
      if g.blocks[b].reachable != reachable[b] {
        return false;
      }
    }
    for i := 0 to |g.dependencyAnchors|
      invariant forall k :: 0 <= k < i ==> AnchorOk(g, g.dependencyAnchors[k])
    {
      var a := g.dependencyAnchors[i];
      assert a in g.dependencyAnchors;
      if a.instructionOffset > g.instructionCount {
        return false;
      }
      if a.block != BlockAtInstruction(g.instructionBlocks, a.instructionOffset, g.exitBlock) {
        return false;
      }
      var expected := if a.block == g.exitBlock then 0 else a.instructionOffset - g.blocks[a.block].firstInstruction;
      if a.offsetInBlock != expected {
        return false;
      }
    }
    ok := true;
  }

  // ----------------------------------------------------------------- construction

  /** Where a block has to start: at the entry, after a terminator, at a jump target. */
  ghost predicate Leader(code: seq<Instr>, upTo: nat, x: nat)
    requires upTo <= |code|
  {
    || x == 0
    || (exists i :: 0 <= i < upTo && IsTerminator(code[i]) && x == i + 1 && x < |code|)
    || (exists i :: 0 <= i < upTo && IsJump(code[i]) && x == code[i].target && x < |code|)
  }

  method FindStarts(code: seq<Instr>) returns (ok: bool, starts: seq<nat>)
    requires code != []
    ensures ok == TargetsInRange(code)
    ensures ok ==> SortedVectors.Sorted(starts) && forall x :: x in starts <==> Leader(code, |code|, x)
  {
    starts := [0];
    for i := 0 to |code|
      invariant forall k :: 0 <= k < i && IsJump(code[k]) ==> code[k].target <= |code|
      invariant forall x :: x in starts <==> Leader(code, i, x)
    {
      if IsJump(code[i]) && code[i].target > |code| {
        return false, [];
      }
      ghost var before := starts;
      if IsTerminator(code[i]) && i + 1 < |code| {
        starts := starts + [i + 1];
      }
      if IsJump(code[i]) && code[i].target < |code| {
        starts := starts + [code[i].target];
      }
      LeaderStep(code, i, before, starts);
    }
    ok, starts := true, SortedVectors.SortUnique(starts);
  }

  lemma LeaderStep(code: seq<Instr>, i: nat, before: seq<nat>, after: seq<nat>)
    requires i < |code| && forall x :: x in before <==> Leader(code, i, x)
    requires after == before + (if IsTerminator(code[i]) && i + 1 < |code| then [i + 1] else [])
                            + (if IsJump(code[i]) && code[i].target < |code| then [code[i].target] else [])
    ensures forall x :: x in after <==> Leader(code, i + 1, x)
  {
    forall x ensures x in after <==> Leader(code, i + 1, x) {
      if x in before {
        assert Leader(code, i, x);
      }
    }
  }

  function EndOf(starts: seq<nat>, index: nat, n: nat): nat
    requires index < |starts|
  {
    if index + 1 < |starts| then starts[index + 1] else n
  }

  /** The blocks of the stream before their edges are known. */
  predicate BareBlock(block: Block, starts: seq<nat>, index: nat, n: nat)
    requires index < |starts|
  {
    block == Block(index, starts[index], EndOf(starts, index, n), false, false, [], [])
  }

  /** Block `b`, one of the first `count`, holds instruction `i`. */
  predicate Holds(starts: seq<nat>, n: nat, count: nat, b: nat, i: nat)
    requires count <= |starts|
  {
    b < count && starts[b] <= i < EndOf(starts, b, n)
  }

  method SplitBlocks(starts: seq<nat>, n: nat) returns (blocks: seq<Block>, instructionBlocks: seq<nat>)
    requires SortedVectors.Sorted(starts) && starts != [] && starts[0] == 0 && forall x :: x in starts ==> x < n
    ensures |blocks| == |starts| && forall b :: 0 <= b < |blocks| ==> BareBlock(blocks[b], starts, b, n)
    ensures |instructionBlocks| == n
    ensures forall i :: 0 <= i < n ==> Holds(starts, n, |starts|, instructionBlocks[i], i)
  {
    blocks, instructionBlocks := [], seq(n, _ => 0);
    for index := 0 to |starts|
      invariant |blocks| == index && forall b :: 0 <= b < index ==> BareBlock(blocks[b], starts, b, n)
      invariant |instructionBlocks| == n
      invariant forall i :: 0 <= i < n && (index < |starts| ==> i < starts[index]) ==>
        Holds(starts, n, index, instructionBlocks[i], i)
    {
      var first, end := starts[index], EndOf(starts, index, n);
      assert starts[index] in starts;
      if index + 1 < |starts| {
        assert starts[index + 1] in starts;
      }
      var blockId := |blocks|;
      blocks := blocks + [Block(blockId, first, end, false, false, [], [])];
      for i := first to end
        invariant |instructionBlocks| == n
        invariant forall k :: 0 <= k < i ==> Holds(starts, n, index + 1, instructionBlocks[k], k)
      {
        instructionBlocks := instructionBlocks[i := blockId];
      }
    }
  }

  /** Where control can be after the instruction at `i`; leaving the stream is position `|code|`. */
  function NextPositions(code: seq<Instr>, i: nat): set<nat>
    requires i < |code|
  {
    match code[i]
    case Jump(target) => {target}
    case JumpIf(_, _, target) => {i + 1, target}
    case ReturnValue(_) => {|code|}
    case _ => {i + 1}
  }

  function AddUnique(values: seq<nat>, value: nat): (r: seq<nat>)
    ensures forall y :: y in r <==> y in values || y == value
    ensures NoDuplicates(values) ==> NoDuplicates(r)
  {
    if value in values then values else values + [value]
  }

  method FindSuccessors(code: seq<Instr>, end: nat, instructionBlocks: seq<nat>, exitBlock: nat)
    returns (successors: seq<nat>)
    requires 0 < end <= |code| && |instructionBlocks| == |code| && TargetsInRange(code)
    ensures NoDuplicates(successors)
    ensures forall s :: s in successors <==>
      exists t :: t in NextPositions(code, end - 1) && t <= |code| && s == BlockAtInstruction(instructionBlocks, t, exitBlock)
  {
    var terminator := code[end - 1];
    successors := [];
    ghost var positions: set<nat> := {};
    if terminator.Jump? {
      successors := AddUnique(successors, BlockAtInstruction(instructionBlocks, terminator.target, exitBlock));
      positions := {terminator.target};
    } else if terminator.JumpIf? {
      successors := AddUnique(successors, BlockAtInstruction(instructionBlocks, end, exitBlock));
      successors := AddUnique(successors, BlockAtInstruction(instructionBlocks, terminator.target, exitBlock));
      positions := {end, terminator.target};
    } else if terminator.ReturnValue? {
      successors := AddUnique(successors, exitBlock);
      positions := {|code|};
    } else {
      successors := AddUnique(successors, BlockAtInstruction(instructionBlocks, end, exitBlock));
      positions := {end};
    }
    assert positions == NextPositions(code, end - 1);
    forall t | t in positions ensures BlockAtInstruction(instructionBlocks, t, exitBlock) in successors {
    }
  }

  /** Blocks that differ from `bare` only in their edge lists and reachable flags. */
  predicate SameRanges(blocks: seq<Block>, bare: seq<Block>) {
    && |blocks| == |bare|
    && forall b :: 0 <= b < |blocks| ==>
         && blocks[b].id == bare[b].id && blocks[b].firstInstruction == bare[b].firstInstruction
         && blocks[b].endInstruction == bare[b].endInstruction && blocks[b].syntheticExit == bare[b].syntheticExit
  }

  /** Successor lists say exactly where the terminator can go. */
  ghost predicate SuccessorsExact(code: seq<Instr>, block: Block, instructionBlocks: seq<nat>, exitBlock: nat)
    requires |instructionBlocks| == |code|
  {
    && NoDuplicates(block.successors)
    && 0 < block.endInstruction <= |code|
    && forall s :: s in block.successors <==>
         exists t :: t in NextPositions(code, block.endInstruction - 1) && t <= |code|
                     && s == BlockAtInstruction(instructionBlocks, t, exitBlock)
  }

  method LinkSuccessors(code: seq<Instr>, bare: seq<Block>, instructionBlocks: seq<nat>) returns (blocks: seq<Block>)
    requires bare != [] && |instructionBlocks| == |code| && TargetsInRange(code)
    requires forall b :: 0 <= b < |bare| ==> bare[b].successors == [] && bare[b].predecessors == [] && !bare[b].reachable
    requires forall b :: 0 <= b < |bare| - 1 ==> 0 < bare[b].endInstruction <= |code|
    ensures SameRanges(blocks, bare)
    ensures forall b :: 0 <= b < |blocks| ==> blocks[b].predecessors == [] && !blocks[b].reachable
    ensures forall b :: 0 <= b < |blocks| - 1 ==> SuccessorsExact(code, blocks[b], instructionBlocks, |bare| - 1)
    ensures blocks[|bare| - 1].successors == []
  {
    blocks := bare;
    var exitBlock := |bare| - 1;
    for b := 0 to exitBlock
      invariant SameRanges(blocks, bare)
      invariant forall k :: 0 <= k < |blocks| ==> blocks[k].predecessors == [] && !blocks[k].reachable
      invariant forall k :: 0 <= k < b ==> SuccessorsExact(code, blocks[k], instructionBlocks, exitBlock)
      invariant forall k :: b <= k < |blocks| ==> blocks[k] == bare[k]
    {
      var successors := FindSuccessors(code, bare[b].endInstruction, instructionBlocks, exitBlock);
      blocks := blocks[b := blocks[b].(successors := successors)];
    }
  }

  /** `p` is listed before `upTo`, or is the current block with one of the successors already handled. */
  predicate Listed(linked: seq<Block>, upTo: nat, done: nat, p: nat, s: nat)
    requires upTo <= |linked|
  {
    || (p < upTo && s in linked[p].successors)
    || (p == upTo && upTo < |linked| && done <= |linked[upTo].successors| && s in linked[upTo].successors[..done])
  }

  method LinkPredecessors(linked: seq<Block>) returns (blocks: seq<Block>)
    requires forall b :: 0 <= b < |linked| ==>
      linked[b].predecessors == [] && forall s :: s in linked[b].successors ==> s < |linked|
    ensures SameRanges(blocks, linked)
    ensures forall b :: 0 <= b < |blocks| ==>
      && blocks[b] == linked[b].(predecessors := blocks[b].predecessors)
      && NoDuplicates(blocks[b].predecessors)
      && forall p: nat :: p in blocks[b].predecessors <==> p < |linked| && b in linked[p].successors
  {
    blocks := linked;
    for b := 0 to |linked|
      invariant |blocks| == |linked|
      invariant forall k :: 0 <= k < |blocks| ==>
        && blocks[k] == linked[k].(predecessors := blocks[k].predecessors)
        && NoDuplicates(blocks[k].predecessors)
        && forall p: nat :: p in blocks[k].predecessors <==> Listed(linked, b, 0, p, k)
    {
      var successors := linked[b].successors;
      for i := 0 to |successors|
        invariant |blocks| == |linked|
        invariant forall k :: 0 <= k < |blocks| ==>
          && blocks[k] == linked[k].(predecessors := blocks[k].predecessors)
          && NoDuplicates(blocks[k].predecessors)
          && forall p: nat :: p in blocks[k].predecessors <==> Listed(linked, b, i, p, k)
      {
        var s := successors[i];
        assert successors[..i + 1] == successors[..i] + [s];
        assert s in successors;
        blocks := blocks[s := blocks[s].(predecessors := AddUnique(blocks[s].predecessors, b))];
      }
      assert successors[..|successors|] == successors;
    }
  }

  /** The graph describes the stream: block starts are exactly the leaders, terminators end
      blocks, and edges are exactly where a block's last instruction can go. */
  ghost predicate Adequate(code: seq<Instr>, g: Cfg)
    requires ExitOk(g) && RangesOk(g) && MapOk(g)
  {
    && g.instructionCount == |code| && TargetsInRange(code)
    && (forall b :: 0 <= b < g.exitBlock ==> BlockAdequate(code, g, b))
    && forall x :: 0 <= x < |code| && Leader(code, |code|, x) ==> g.blocks[g.instructionBlocks[x]].firstInstruction == x
  }

  ghost predicate BlockAdequate(code: seq<Instr>, g: Cfg, b: nat)
    requires ExitOk(g) && RangesOk(g) && MapOk(g) && b < g.exitBlock && g.instructionCount == |code|
  {
    var block := g.blocks[b];
    && Leader(code, |code|, block.firstInstruction)
    && SuccessorsExact(code, block, g.instructionBlocks, g.exitBlock)
    && forall i :: block.firstInstruction <= i < block.endInstruction - 1 ==> !IsTerminator(code[i])
  }

  /** The blocks of a stream that is not empty, with their edges. */
  method BuildBlocks(code: seq<Instr>) returns (ok: bool, g: Cfg)
    requires code != []
    ensures ok == TargetsInRange(code)
    ensures ok ==> ExitOk(g) && RangesOk(g) && MapOk(g) && EdgesOk(g) && Adequate(code, g)
    ensures ok ==> g.entryBlock == 0 && g.dependencyAnchors == [] && g.instructionCount == |code|
  {
    hide RangesOk, MapOk, EdgesOk, Adequate;
    g := Cfg(0, 0, 0, [], [], []);
    var starts, bare, blocks, instructionBlocks;
    ok, starts := FindStarts(code);
    if !ok {
      return;
    }
    assert Leader(code, |code|, 0);
    FirstStart(starts);
    bare, instructionBlocks := SplitBlocks(starts, |code|);
    var exitBlock := |bare|;
    bare := bare + [Block(exitBlock, |code|, |code|, true, false, [], [])];
    BlockEnds(code, starts, bare);
    assert forall b :: 0 <= b < |starts| ==> BareBlock(bare[b], starts, b, |code|);
    blocks := LinkSuccessors(code, bare, instructionBlocks);
    assert forall i :: 0 <= i < |code| ==> Holds(starts, |code|, |starts|, instructionBlocks[i], i);
    SuccessorsInRange(code, blocks, instructionBlocks);
    ghost var linked := blocks;
    blocks := LinkPredecessors(blocks);
    g := Cfg(|code|, 0, exitBlock, blocks, instructionBlocks, []);
    IsPartitioned(code, starts, bare, linked, g);
    RangesPart(starts, |code|, g);
    MapPart(starts, |code|, g);
    AdequatePart(code, starts, linked, g);
    EdgesHold(linked, g);
  }

  lemma EmptyGraph()
    ensures
      var g := Cfg(0, 0, 0, [Block(0, 0, 0, true, false, [], [])], [], []);
      ExitOk(g) && RangesOk(g) && MapOk(g) && EdgesOk(g) && Adequate([], g) && TargetsInRange([])
  {
  }

  /** Fails exactly on a jump or dependency offset outside the stream; otherwise the graph is
      adequate and passes its own verification. */
  method Build(code: seq<Instr>, offsets: seq<nat>) returns (ok: bool, g: Cfg)
    ensures ok == (TargetsInRange(code) && forall k :: 0 <= k < |offsets| ==> offsets[k] <= |code|)
    ensures ok ==> WellFormed(g) && Adequate(code, g) && g.entryBlock == 0
    ensures ok ==> |g.dependencyAnchors| == |offsets|
    ensures ok ==> forall k :: 0 <= k < |offsets| ==> g.dependencyAnchors[k].instructionOffset == offsets[k]
  {
    hide RangesOk, MapOk, EdgesOk, Adequate, AnchorOk, ReachableOk;
    if code == [] {
      EmptyGraph();
      ok, g := true, Cfg(0, 0, 0, [Block(0, 0, 0, true, false, [], [])], [], []);
    } else {
      ok, g := BuildBlocks(code);
      if !ok {
        return;
      }
    }
    var anchors;
    ok, anchors := PlaceAnchors(g, offsets);
    if !ok {
      return;
    }
    AnchorsAdded(code, g, anchors);
    g := g.(dependencyAnchors := anchors);
    ghost var unmarked := g;
    g := MarkReachable(g);
    AdequateKept(code, unmarked, g);
    ok := Verify(g);
  }

  lemma FirstStart(starts: seq<nat>)
    requires SortedVectors.Sorted(starts) && 0 in starts
    ensures starts != [] && starts[0] == 0
  {
  }

  lemma BlockEnds(code: seq<Instr>, starts: seq<nat>, bare: seq<Block>)
    requires SortedVectors.Sorted(starts) && |bare| == |starts| + 1 && forall x :: x in starts ==> x < |code|
    requires forall b :: 0 <= b < |starts| ==> BareBlock(bare[b], starts, b, |code|)
    ensures forall b :: 0 <= b < |starts| ==> bare[b].firstInstruction < bare[b].endInstruction <= |code|
  {
    forall b | 0 <= b < |starts| ensures bare[b].firstInstruction < bare[b].endInstruction <= |code| {
      assert BareBlock(bare[b], starts, b, |code|);
      assert starts[b] in starts;
      if b + 1 < |starts| {
        assert starts[b + 1] in starts;
      }
    }
  }

  lemma SuccessorsInRange(code: seq<Instr>, blocks: seq<Block>, instructionBlocks: seq<nat>)
    requires blocks != [] && |instructionBlocks| == |code|
    requires forall i :: 0 <= i < |code| ==> instructionBlocks[i] < |blocks| - 1
    requires forall b :: 0 <= b < |blocks| - 1 ==> SuccessorsExact(code, blocks[b], instructionBlocks, |blocks| - 1)
    requires blocks[|blocks| - 1].successors == []
    ensures forall b, s :: 0 <= b < |blocks| && s in blocks[b].successors ==> s < |blocks|
    ensures forall b :: 0 <= b < |blocks| ==> NoDuplicates(blocks[b].successors)
  {
    forall b, s | 0 <= b < |blocks| && s in blocks[b].successors ensures s < |blocks| {
      assert SuccessorsExact(code, blocks[b], instructionBlocks, |blocks| - 1);
    }
    forall b | 0 <= b < |blocks| ensures NoDuplicates(blocks[b].successors) {
      if b < |blocks| - 1 {
        assert SuccessorsExact(code, blocks[b], instructionBlocks, |blocks| - 1);
      }
    }
  }

  lemma EdgesHold(linked: seq<Block>, g: Cfg)
    requires |g.blocks| == |linked|
    requires forall b, s :: 0 <= b < |linked| && s in linked[b].successors ==> s < |linked|
    requires forall b :: 0 <= b < |linked| ==> NoDuplicates(linked[b].successors)
    requires forall b :: 0 <= b < |linked| ==>
      && g.blocks[b] == linked[b].(predecessors := g.blocks[b].predecessors)
      && NoDuplicates(g.blocks[b].predecessors)
      && forall p: nat :: p in g.blocks[b].predecessors <==> p < |linked| && b in linked[p].successors
    ensures EdgesOk(g)
  {
    forall b | 0 <= b < |g.blocks| ensures BlockEdgesOk(g, b) {
      forall s | s in g.blocks[b].successors ensures s < |g.blocks| && b in g.blocks[s].predecessors {
        assert s in linked[b].successors;
      }
    }
  }

  /** The blocks have the ranges of the starts and the last one is the exit. */
  ghost predicate Partitioned(starts: seq<nat>, n: nat, g: Cfg) {
    && SortedVectors.Sorted(starts) && starts != [] && starts[0] == 0 && (forall x :: x in starts ==> x < n)
    && ExitOk(g) && g.exitBlock == |starts| && g.instructionCount == n
    && forall b: nat :: b < |starts| ==> BlockOf(g.blocks[b], starts, b, n)
  }

  /** One block of the partition, whatever its edges. */
  predicate BlockOf(block: Block, starts: seq<nat>, b: nat, n: nat)
    requires b < |starts|
  {
    && block.id == b && !block.syntheticExit
    && block.firstInstruction == starts[b] && block.endInstruction == EndOf(starts, b, n)
  }

  lemma IsPartitioned(code: seq<Instr>, starts: seq<nat>, bare: seq<Block>, linked: seq<Block>, g: Cfg)
    requires SortedVectors.Sorted(starts) && starts != [] && starts[0] == 0 && forall x :: x in starts ==> x < |code|
    requires |bare| == |starts| + 1 && forall b :: 0 <= b < |starts| ==> BareBlock(bare[b], starts, b, |code|)
    requires bare[|starts|] == Block(|starts|, |code|, |code|, true, false, [], [])
    requires SameRanges(g.blocks, linked) && SameRanges(linked, bare)
    requires forall b :: 0 <= b < |g.blocks| ==> g.blocks[b].successors == linked[b].successors
    requires linked[|starts|].successors == []
    requires g.instructionCount == |code| && g.entryBlock == 0 && g.exitBlock == |starts|
    ensures Partitioned(starts, |code|, g)
  {
    forall b: nat | b < |starts| ensures BlockOf(g.blocks[b], starts, b, |code|) {
      assert BareBlock(bare[b], starts, b, |code|);
    }
  }

  lemma StartBefore(starts: seq<nat>, n: nat, b: nat)
    requires SortedVectors.Sorted(starts) && b < |starts| && forall x :: x in starts ==> x < n
    ensures starts[b] < EndOf(starts, b, n) <= n
  {
    assert starts[b] in starts;
    if b + 1 < |starts| {
      assert starts[b + 1] in starts;
    }
  }

  lemma RangesPart(starts: seq<nat>, n: nat, g: Cfg)
    requires Partitioned(starts, n, g)
    ensures RangesOk(g)
  {
    forall id: nat | id < g.exitBlock ensures RangeOk(g, id) {
      StartBefore(starts, n, id);
      assert BlockOf(g.blocks[id], starts, id, n);
      if id > 0 {
        assert BlockOf(g.blocks[id - 1], starts, id - 1, n);
      }
    }
    assert BlockOf(g.blocks[|starts| - 1], starts, |starts| - 1, n);
  }

  lemma MapPart(starts: seq<nat>, n: nat, g: Cfg)
    requires Partitioned(starts, n, g) && |g.instructionBlocks| == n
    requires forall i :: 0 <= i < n ==> Holds(starts, n, |starts|, g.instructionBlocks[i], i)
    ensures MapOk(g)
  {
    forall i | 0 <= i < g.instructionCount
      ensures
        var b := g.instructionBlocks[i];
        b < g.exitBlock && g.blocks[b].firstInstruction <= i < g.blocks[b].endInstruction
    {
      assert Holds(starts, n, |starts|, g.instructionBlocks[i], i);
      assert BlockOf(g.blocks[g.instructionBlocks[i]], starts, g.instructionBlocks[i], n);
    }
  }

  lemma AdequatePart(code: seq<Instr>, starts: seq<nat>, linked: seq<Block>, g: Cfg)
    requires Partitioned(starts, |code|, g) && RangesOk(g) && MapOk(g) && TargetsInRange(code)
    requires forall x :: x in starts <==> Leader(code, |code|, x)
    requires |linked| == |g.blocks| && forall b :: 0 <= b < |g.blocks| ==> g.blocks[b].successors == linked[b].successors
    requires forall b :: 0 <= b < |starts| ==> linked[b].endInstruction == g.blocks[b].endInstruction
    requires forall i :: 0 <= i < |code| ==> Holds(starts, |code|, |starts|, g.instructionBlocks[i], i)
    requires forall b :: 0 <= b < |starts| ==> SuccessorsExact(code, linked[b], g.instructionBlocks, |starts|)
    ensures Adequate(code, g)
  {
    hide RangesOk, RangeOk, TargetsInRange, Leader;
    forall x | 0 <= x < |code| && Leader(code, |code|, x) ensures g.blocks[g.instructionBlocks[x]].firstInstruction == x {
      StartsItsBlock(code, starts, g.instructionBlocks[x], x);
      assert BlockOf(g.blocks[g.instructionBlocks[x]], starts, g.instructionBlocks[x], |code|);
    }
    forall b: nat | b < g.exitBlock ensures BlockAdequate(code, g, b) {
      assert BlockOf(g.blocks[b], starts, b, |code|) && starts[b] in starts;
      assert SuccessorsExact(code, linked[b], g.instructionBlocks, |starts|);
      StartBefore(starts, |code|, b);
      NoTerminatorInside(code, starts, b);
    }
  }

  /** A terminator is followed by a start, so it ends its block. */
  lemma NoTerminatorInside(code: seq<Instr>, starts: seq<nat>, b: nat)
    requires SortedVectors.Sorted(starts) && b < |starts|
    requires forall x :: x in starts <==> Leader(code, |code|, x)
    requires EndOf(starts, b, |code|) <= |code|
    ensures forall i :: starts[b] <= i < EndOf(starts, b, |code|) - 1 ==> !IsTerminator(code[i])
  {
    forall i | starts[b] <= i < EndOf(starts, b, |code|) - 1 ensures !IsTerminator(code[i]) {
      if IsTerminator(code[i]) {
        assert Leader(code, |code|, i + 1);
        InnerNotStart(starts, |code|, b, i + 1);
      }
    }
  }

  lemma StartsItsBlock(code: seq<Instr>, starts: seq<nat>, b: nat, x: nat)
    requires SortedVectors.Sorted(starts) && x in starts && Holds(starts, |code|, |starts|, b, x)
    ensures starts[b] == x
  {
    var k :| 0 <= k < |starts| && starts[k] == x;
  }

  lemma InnerNotStart(starts: seq<nat>, n: nat, b: nat, x: nat)
    requires SortedVectors.Sorted(starts) && b < |starts| && starts[b] < x < EndOf(starts, b, n)
    ensures x !in starts
  {
    forall k | 0 <= k < |starts| ensures starts[k] != x {
      if k <= b {
        assert k < b ==> starts[k] < starts[b];
      } else {
        assert b + 1 < k ==> starts[b + 1] < starts[k];
      }
    }
  }

  method PlaceAnchors(g: Cfg, offsets: seq<nat>) returns (ok: bool, anchors: seq<Anchor>)
    requires ExitOk(g) && RangesOk(g) && MapOk(g)
    ensures ok == forall k :: 0 <= k < |offsets| ==> offsets[k] <= g.instructionCount
    ensures ok ==> |anchors| == |offsets|
    ensures ok ==> forall k :: 0 <= k < |offsets| ==>
      anchors[k].instructionOffset == offsets[k] && AnchorOk(g, anchors[k])
  {
    anchors := [];
    for k := 0 to |offsets|
      invariant |anchors| == k
      invariant forall j :: 0 <= j < k ==>
        offsets[j] <= g.instructionCount && anchors[j].instructionOffset == offsets[j] && AnchorOk(g, anchors[j])
    {
      if offsets[k] > g.instructionCount {
        return false, [];
      }
      var block := BlockAtInstruction(g.instructionBlocks, offsets[k], g.exitBlock);
      var offset := if block == g.exitBlock then 0 else offsets[k] - g.blocks[block].firstInstruction;
      anchors := anchors + [Anchor(offsets[k], block, offset)];
    }
    ok := true;
  }

  method MarkReachable(g: Cfg) returns (marked: Cfg)
    requires g.entryBlock < |g.blocks| && EdgesOk(g)
    ensures marked == g.(blocks := marked.blocks) && |marked.blocks| == |g.blocks|
    ensures forall b :: 0 <= b < |g.blocks| ==> marked.blocks[b] == g.blocks[b].(reachable := marked.blocks[b].reachable)
    ensures ReachableOk(marked)
  {
    EdgesClosed(g);
    var visited := FindReachable(GraphOf(g));
    var blocks := g.blocks;
    for b := 0 to |blocks|
      invariant |blocks| == |g.blocks|
      invariant forall k :: 0 <= k < |blocks| ==>
        blocks[k] == g.blocks[k].(reachable := if k < b then visited[k] else g.blocks[k].reachable)
    {
      blocks := blocks[b := blocks[b].(reachable := visited[b])];
    }
    marked := g.(blocks := blocks);
    assert SuccessorLists(blocks) == SuccessorLists(g.blocks);
  }

  lemma AnchorsAdded(code: seq<Instr>, g: Cfg, anchors: seq<Anchor>)
    requires ExitOk(g) && RangesOk(g) && MapOk(g) && EdgesOk(g) && Adequate(code, g)
    requires forall a :: a in anchors ==> AnchorOk(g, a)
    ensures
      var g' := g.(dependencyAnchors := anchors);
      && ExitOk(g') && RangesOk(g') && MapOk(g') && EdgesOk(g') && Adequate(code, g')
      && forall a :: a in anchors ==> AnchorOk(g', a)
  {
    var g' := g.(dependencyAnchors := anchors);
    forall id | 0 <= id < g'.exitBlock ensures RangeOk(g', id) {
      assert RangeOk(g, id);
    }
    forall b | 0 <= b < |g'.blocks| ensures BlockEdgesOk(g', b) {
      assert BlockEdgesOk(g, b);
    }
    forall b | 0 <= b < g'.exitBlock ensures BlockAdequate(code, g', b) {
      assert BlockAdequate(code, g, b);
    }
    forall a | a in anchors ensures AnchorOk(g', a) {
      assert AnchorOk(g, a);
    }
  }

  /** The reachable flags do not matter for the rest. */
  lemma AdequateKept(code: seq<Instr>, g: Cfg, marked: Cfg)
    requires ExitOk(g) && RangesOk(g) && MapOk(g) && EdgesOk(g) && Adequate(code, g)
    requires forall a :: a in g.dependencyAnchors ==> AnchorOk(g, a)
    requires marked == g.(blocks := marked.blocks) && |marked.blocks| == |g.blocks|
    requires forall b :: 0 <= b < |g.blocks| ==> marked.blocks[b] == g.blocks[b].(reachable := marked.blocks[b].reachable)
    ensures ExitOk(marked) && RangesOk(marked) && MapOk(marked) && EdgesOk(marked) && Adequate(code, marked)
    ensures forall a :: a in marked.dependencyAnchors ==> AnchorOk(marked, a)
  {
    forall id | 0 <= id < marked.exitBlock ensures RangeOk(marked, id) {
      assert RangeOk(g, id);
    }
    forall b | 0 <= b < |marked.blocks| ensures BlockEdgesOk(marked, b) {
      assert BlockEdgesOk(g, b);
    }
    forall b | 0 <= b < marked.exitBlock ensures BlockAdequate(code, marked, b) {
      assert BlockAdequate(code, g, b);
    }
    forall a | a in marked.dependencyAnchors ensures AnchorOk(marked, a) {
      assert AnchorOk(g, a);
    }
  }

  // -------------------------------------------------------------- machine adequacy

  lemma StepPosition(rt: Runtime, p: Program, m: State)
    requires m.Running? && m.pc < |p.code|
    ensures
      var m' := Step(rt, p, m);
      && (m'.Running? ==> m'.pc in NextPositions(p.code, m.pc))
      && (m'.Returned? ==> p.code[m.pc].ReturnValue?)
  {
  }

  /** A machine step stays in its block, or leaves the block's last instruction for the first
      instruction of a successor (or the exit). */
  lemma StepFollowsBlocks(rt: Runtime, p: Program, g: Cfg, m: State)
    requires WellFormed(g) && Adequate(p.code, g)
    requires m.Running? && m.pc < |p.code|
    ensures
      var m', b := Step(rt, p, m), g.instructionBlocks[m.pc];
      var block := g.blocks[b];
      && (m'.Running? ==>
           if m.pc + 1 < block.endInstruction then m'.pc == m.pc + 1 < |p.code| && g.instructionBlocks[m'.pc] == b
           else
             && m'.pc <= |p.code|
             && BlockAtInstruction(g.instructionBlocks, m'.pc, g.exitBlock) in block.successors
             && (m'.pc < |p.code| ==> m'.pc == g.blocks[g.instructionBlocks[m'.pc]].firstInstruction))
      && (m'.Returned? ==> m.pc + 1 == block.endInstruction && g.exitBlock in block.successors)
  {
    var m', b := Step(rt, p, m), g.instructionBlocks[m.pc];
    var block := g.blocks[b];
    StepPosition(rt, p, m);
    assert BlockAdequate(p.code, g, b) && RangeOk(g, b);
    if m.pc + 1 < block.endInstruction {
      assert !IsTerminator(p.code[m.pc]);
      if m'.Running? {
        assert m'.pc == m.pc + 1;
        SameBlock(g, b, m'.pc);
      }
    } else {
      assert SuccessorsExact(p.code, block, g.instructionBlocks, g.exitBlock);
      if m'.Running? {
        assert m'.pc <= |p.code|;
        if m'.pc < |p.code| {
          assert Leader(p.code, |p.code|, m'.pc) by {
            NextIsLeader(p.code, g, b, m.pc, m'.pc);
          }
        }
      } else if m'.Returned? {
        assert |p.code| in NextPositions(p.code, block.endInstruction - 1);
        assert BlockAtInstruction(g.instructionBlocks, |p.code|, g.exitBlock) == g.exitBlock;
      }
    }
  }

  /** The instruction map is the inverse of the ranges. */
  lemma SameBlock(g: Cfg, b: nat, i: nat)
    requires WellFormed(g) && b < g.exitBlock && g.blocks[b].firstInstruction <= i < g.blocks[b].endInstruction
    ensures i < g.instructionCount && g.instructionBlocks[i] == b
  {
    assert RangeOk(g, b);
    var c := g.instructionBlocks[i];
    if c < b {
      EndsAscend(g, c, b - 1);
    } else if b < c {
      assert RangeOk(g, c);
      EndsAscend(g, b, c - 1);
    }
  }

  lemma {:induction false} EndsAscend(g: Cfg, a: nat, b: nat)
    requires WellFormed(g) && a <= b < g.exitBlock
    ensures g.blocks[a].endInstruction <= g.blocks[b].endInstruction
    decreases b
  {
    if a < b {
      EndsAscend(g, a, b - 1);
      assert RangeOk(g, b);
    }
  }

  /** What follows a block's last instruction is a leader. */
  lemma NextIsLeader(code: seq<Instr>, g: Cfg, b: nat, i: nat, x: nat)
    requires WellFormed(g) && Adequate(code, g) && b < g.exitBlock
    requires i + 1 == g.blocks[b].endInstruction && x < |code| && i < |code| && x in NextPositions(code, i)
    ensures Leader(code, |code|, x)
  {
    if !(IsJump(code[i]) && x == code[i].target) {
      assert x == i + 1;
      assert NextStart(g.blocks, g.exitBlock) == g.instructionCount;
      assert RangeOk(g, b + 1) && BlockAdequate(code, g, b + 1);
    }
  }

  /** Every instruction the machine ever reaches lies in a block marked reachable. */
  lemma {:induction false} RunsInReachableBlocks(rt: Runtime, p: Program, g: Cfg, m: State, n: nat)
    requires WellFormed(g) && Adequate(p.code, g) && g.entryBlock == 0 && m.Running? && m.pc == 0
    ensures
      var m' := Steps(rt, p, m, n);
      m'.Running? && m'.pc < |p.code| ==> g.blocks[g.instructionBlocks[m'.pc]].reachable
    decreases n
  {
    var m' := Steps(rt, p, m, n);
    EdgesClosed(g);
    if n == 0 {
      if 0 < |p.code| {
        assert RangeOk(g, 0);
        SameBlock(g, 0, 0);
        EntryReachable(GraphOf(g));
      }
    } else if m'.Running? && m'.pc < |p.code| {
      RunsInReachableBlocks(rt, p, g, m, n - 1);
      StepsCompose(rt, p, m, n - 1, 1);
      var before := Steps(rt, p, m, n - 1);
      assert m' == Step(rt, p, before) by {
        assert Steps(rt, p, before, 1) == Steps(rt, p, Step(rt, p, before), 0);
      }
      StepFollowsBlocks(rt, p, g, before);
      var b, c := g.instructionBlocks[before.pc], g.instructionBlocks[m'.pc];
      if c != b || before.pc + 1 >= g.blocks[b].endInstruction {
        assert Edge(GraphOf(g), b, c);
        ReachableStep(GraphOf(g), b, c);
      }
    }
  }

  /** The operand counts of the primitives that have one. */
  predicate CountFits(prim: Prim, count: nat) {
    match prim
    case VariantTag(_, _) => count == 1
    case VariantField(_) => count == 1
    case Index => count == 2
    case Field(_) => count == 1
    case Len => count == 1
    case AssertNumber(_) => count == 1
    case Negate => count == 1
    case Not => count == 1
    case Arithmetic(_) => count == 2
    case Equal => count == 2
    case NotEqual => count == 2
    case _ => true
  }

  /** The instruction has the operands that its operation needs. */
  predicate Complete(i: Instr, functions: nat) {
    && (i.Compute? ==> CountFits(i.prim, |i.arguments|))
    && (i.MakeFunction? ==> i.functionIndex < functions)
  }

  /** A runtime in which no object operation fails. */
  function Lenient(): Runtime {
    Runtime((prim, args, w) => Done(Nil, w), (h, v) => Option.Some(0), (h, c, i) => Option.Some(Nil), (h, o, n) => Option.Some(Nil))
  }

  /** An operand that suits a primitive. */
  function Suitable(prim: Prim): Value {
    match prim
    case VariantField(k) => Variant("", "", seq(k + 1, _ => Nil))
    case _ => Number(1.0)
  }

  lemma ComputeSucceeds(prim: Prim, args: seq<Value>, w: World)
    requires CountFits(prim, |args|) && forall k :: 0 <= k < |args| ==> args[k] == Suitable(prim)
    ensures Apply(Lenient(), prim, args, w).Done? && Apply(Lenient(), prim, args, w).world == w
  {
  }

  /** An instruction with its operands goes on to each of its next positions from some state. */
  lemma PositionTaken(p: Program, i: nat, t: nat) returns (m: State)
    requires i < |p.code| && Complete(p.code[i], |p.functions|) && t in NextPositions(p.code, i)
    ensures m.Running? && m.pc == i
    ensures
      var m' := Step(Lenient(), p, m);
      if p.code[i].ReturnValue? then m'.Returned? else m'.Running? && m'.pc == t
  {
    var w := World(map[], map[], []);
    m := Running(i, map[], map[], w);
    match p.code[i]
    case Compute(dest, prim, arguments) =>
      m := m.(regs := map r | r in arguments :: Suitable(prim));
      ComputeSucceeds(prim, ReadAll(m.regs, arguments), w);
    case MakeFunction(_, _) =>
    case Copy(_, source) => m := m.(regs := map[source := Nil]);
    case LoadVar(_, x) => m := Knowing(m, x);
    case StoreVar(_, source) => m := m.(regs := map[source := Nil]);
    case AssignVar(x, source) => m := Knowing(m.(regs := map[source := Nil]), x);
    case PrintValue(source) => m := m.(regs := map[source := Nil]);
    case ReturnValue(source) => m := m.(regs := map[source := Nil]);
    case Jump(_) =>
    case JumpIf(condition, onTrue, target) => m := m.(regs := map[condition := Bool((t == target) == onTrue)]);
  }

  /** The state with a variable defined. */
  function Knowing(m: State, x: VarName): State
    requires m.Running?
  {
    match x
    case User(name) => Running(m.pc, m.regs, m.hidden, BindVar(m.world, name, Nil))
    case Synthetic(_, _) => m.(hidden := m.hidden[x := Nil])
  }

  function LastInstruction(code: seq<Instr>, g: Cfg, b: nat): Instr
    requires ExitOk(g) && RangesOk(g) && g.instructionCount == |code| && b < g.exitBlock
  {
    assert RangeOk(g, b);
    code[g.blocks[b].endInstruction - 1]
  }

  /** Every listed edge is taken from some machine state: jumps, fall-throughs and the edge of a return to the exit. */
  lemma EdgeTaken(p: Program, g: Cfg, b: nat, s: nat) returns (m: State)
    requires WellFormed(g) && Adequate(p.code, g) && b < g.exitBlock && s in g.blocks[b].successors
    requires Complete(LastInstruction(p.code, g, b), |p.functions|)
    ensures m.Running? && m.pc == g.blocks[b].endInstruction - 1
    ensures
      var m' := Step(Lenient(), p, m);
      || (m'.Running? && m'.pc <= |p.code| && BlockAtInstruction(g.instructionBlocks, m'.pc, g.exitBlock) == s)
      || (m'.Returned? && s == g.exitBlock)
  {
    hide Step;
    var i := g.blocks[b].endInstruction - 1;
    assert BlockAdequate(p.code, g, b);
    assert SuccessorsExact(p.code, g.blocks[b], g.instructionBlocks, g.exitBlock);
    var t :| t in NextPositions(p.code, i) && t <= |p.code|
             && s == BlockAtInstruction(g.instructionBlocks, t, g.exitBlock);
    m := PositionTaken(p, i, t);
  }

  // ------------------------------------------------------------------ maximal blocks

  /** The instruction is a jump to `x`. */
  predicate JumpsTo(i: Instr, x: nat) {
    match i
    case Jump(target) => target == x
    case JumpIf(_, _, target) => target == x
    case _ => false
  }

  /** From state `m`, just before `x`, one step returns or goes on somewhere else. */
  predicate LeavesBefore(rt: Runtime, p: Program, m: State, x: nat) {
    && m.Running? && m.pc + 1 == x
    && var m' := Step(rt, p, m);
       m'.Returned? || (m'.Running? && m'.pc != x)
  }

  /** A block starts at `x`. */
  predicate StartsBlock(g: Cfg, x: nat)
    requires ExitOk(g)
  {
    exists b :: 0 <= b < g.exitBlock && g.blocks[b].firstInstruction == x
  }

  /** The blocks are as long as they can be: past the first one, a block starts at `x` exactly when
      some jump leads to `x` or the machine can leave the line of instructions just before it. */
  lemma BlocksMaximal(rt: Runtime, p: Program, g: Cfg, x: nat)
    requires WellFormed(g) && Adequate(p.code, g) && 0 < x < |p.code|
    ensures StartsBlock(g, x) <==>
            || (exists i :: 0 <= i < |p.code| && JumpsTo(p.code[i], x))
            || (exists m :: LeavesBefore(rt, p, m, x))
  {
    hide WellFormed, Adequate;
    BoundaryIsLeader(p.code, g, x);
    if m :| LeavesBefore(rt, p, m, x) {
      LeavingIsLeader(rt, p, m, x);
    }
    if i :| 0 <= i < |p.code| && JumpsTo(p.code[i], x) {
      assert Leader(p.code, |p.code|, x);
    }
    if Leader(p.code, |p.code|, x) && !(exists i :: 0 <= i < |p.code| && JumpsTo(p.code[i], x)) {
      var m := LeaderIsLeft(rt, p, x);
    }
  }

  lemma BoundaryIsLeader(code: seq<Instr>, g: Cfg, x: nat)
    requires WellFormed(g) && Adequate(code, g) && x < |code|
    ensures StartsBlock(g, x) <==> Leader(code, |code|, x)
  {
    hide Leader;
    if StartsBlock(g, x) {
      var b :| 0 <= b < g.exitBlock && g.blocks[b].firstInstruction == x;
      assert BlockAdequate(code, g, b);
    }
  }

  /** Only a terminator leaves the line. */
  lemma LeavingIsLeader(rt: Runtime, p: Program, m: State, x: nat)
    requires x < |p.code| && LeavesBefore(rt, p, m, x)
    ensures Leader(p.code, |p.code|, x)
  {
    hide Apply;
    assert IsTerminator(p.code[m.pc]);
  }

  /** A leader that no jump leads to follows an instruction that can leave the line. */
  lemma LeaderIsLeft(rt: Runtime, p: Program, x: nat) returns (m: State)
    requires 0 < x < |p.code| && Leader(p.code, |p.code|, x)
    requires !exists i :: 0 <= i < |p.code| && JumpsTo(p.code[i], x)
    ensures LeavesBefore(rt, p, m, x)
  {
    var i :| 0 <= i < |p.code| && IsTerminator(p.code[i]) && x == i + 1;
    var w := World(map[], map[], []);
    match p.code[i]
    case Jump(target) =>
      m := Running(i, map[], map[], w);
    case JumpIf(condition, onTrue, target) =>
      m := Running(i, map[condition := Bool(onTrue)], map[], w);
    case ReturnValue(source) =>
      m := Running(i, map[source := Nil], map[], w);
  }
}
