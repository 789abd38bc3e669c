/**
 * `IfElseApplicationStrategy`: an if (or while) statement forks the block.
 * The block itself assumes the condition and goes on with the then-branch;
 * a copy taken before that assumes the negated condition, goes on with the
 * else-branch, and is pushed on the stack of pending branches.
 */
module IfElseRule {
  import opened Wrappers
  import opened MathTypes
  import opened Terms
  import opened Queries
  import opened AssertiveBlocks

  /** A program-expression node of the parse tree, by identity. */
  datatype ProgExpNode = ProgExpNode(nodeId: nat)

  /** The parse-tree context a conditional statement was made from. */
  datatype DefiningContext =
    | IfStmtContext(ifCondition: ProgExpNode)
    | WhileStmtContext(whileCondition: ProgExpNode)
    | OtherContext(kind: string)

  /** `VCIfElse`: the program condition, where it came from, and both branches. */
  datatype VCIfElse = VCIfElse(
    progIfCondition: PExp,
    definingContext: DefiningContext,
    thenStmts: seq<VCStat>,
    elseStmts: seq<VCStat>)

  /**
   * The math form of a program condition, as the `Invk_Cond` listener gives
   * it for a condition node (that listener is not part of this model).
   */
  type ConditionTranslation = (ProgExpNode, PExp) -> PExp

  /** `getMathCondition`: the node comes from the if, else from the while; anything else fails the cast. */
  function GetMathCondition(stat: VCIfElse, mathFor: ConditionTranslation): (r: Result<PExp>)
    ensures r.Error? <==> stat.definingContext.OtherContext?
    ensures r.Error? ==> r.error == ClassCast
    ensures stat.definingContext.IfStmtContext? ==> r == Success(mathFor(stat.definingContext.ifCondition, stat.progIfCondition))
    ensures stat.definingContext.WhileStmtContext? ==> r == Success(mathFor(stat.definingContext.whileCondition, stat.progIfCondition))
  {
    match stat.definingContext
    case IfStmtContext(node) => Success(mathFor(node, stat.progIfCondition))
    case WhileStmtContext(node) => Success(mathFor(node, stat.progIfCondition))
    case OtherContext(_) => Error(ClassCast)
  }

  /** The symbol `⌐` as the builder makes it: named by its one print form, typed B → B. */
  const NEGATION_SYMBOL: PExp :=
    PSymbol("⌐", "⌐", "⌐", None, [], false, false, QNone, SPrefix, MTFunction(BOOLEAN, BOOLEAN), None)

  /**
   * `negateMathCondition`: the boolean application `⌐(c)`. It has the one
   * argument `c`, mentions exactly the names `c` mentions, and is a single
   * conjunct.
   */
  function NegateMathCondition(c: PExp): (r: PExp)
    ensures r.PApply? && r.args == [c] && r.appType == BOOLEAN && TopName(r) == "⌐"
    ensures r.fn.PSymbol? && r.fn.mathType == MTFunction(BOOLEAN, BOOLEAN)
    ensures SymbolNames(r, true, true) == SymbolNames(c, true, true)
    ensures Conjuncts(r) == [r]
    ensures !IsEquality(r)
  {
    var r := PApply(NEGATION_SYMBOL, [c], APrefix, false, BOOLEAN, VCInfo(None, None));
    assert [c][0] == c;
    r
  }

  /**
   * `applyRule`. When the condition cannot be had, nothing has changed yet.
   * Otherwise the block assumes the condition and adds the then-statements,
   * re-bound to it, after the statements it still holds; one fresh block, a
   * copy of the block as it was, assumes the negated condition, adds the
   * else-statements re-bound to itself after the same statements and
   * is pushed; the result is the block's snapshot.
   */
  method ApplyIfElse(branches: BlockDeque, block: VCAssertiveBlockBuilder, stat: VCIfElse, mathFor: ConditionTranslation)
    returns (r: Result<AssertiveBlock>)
    modifies branches, block`assumptions, block`stats
    ensures GetMathCondition(stat, mathFor).Error? ==>
      r == Error(ClassCast) && block.assumptions == old(block.assumptions) && block.stats == old(block.stats)
      && branches.items == old(branches.items)
    ensures GetMathCondition(stat, mathFor).Success? ==>
      var cond := GetMathCondition(stat, mathFor).value;
      && block.assumptions == old(block.assumptions) + [cond]
      && block.stats == old(block.stats) + ReboundTo(stat.thenStmts, block)
      && |branches.items| == |old(branches.items)| + 1
      && branches.items[1..] == old(branches.items)
      && fresh(branches.items[0])
      && branches.items[0].Snapshot() == old(block.Snapshot()).(
           assumptions := old(block.assumptions) + [NegateMathCondition(cond)],
           stats := old(block.stats) + ReboundTo(stat.elseStmts, branches.items[0]))
      && r == Success(block.Snapshot())
  {
    var neg := new VCAssertiveBlockBuilder.Copy(block);
    var mathCond := GetMathCondition(stat, mathFor);
    if mathCond.Error? {
      return Error(mathCond.error);
    }
    block.Assume(mathCond.value);
    block.AddStats(ReboundTo(stat.thenStmts, block));
    var negatedCondition := NegateMathCondition(mathCond.value);
    neg.Assume(negatedCondition);
    neg.AddStats(ReboundTo(stat.elseStmts, neg));
    branches.Push(neg);
    r := Success(block.Snapshot());
  }
}

module IfElseFacts {
  import opened Wrappers
  import opened Terms
  import opened AssertiveBlocks
  import opened IfElseRule

  /** Re-binding leaves a list as it is exactly when every statement already belongs to that block. */
  lemma ReboundToIsIdentity(stats: seq<VCStat>, b: VCAssertiveBlockBuilder?)
    ensures ReboundTo(stats, b) == stats <==> forall i :: 0 <= i < |stats| ==> stats[i].enclosingBlock == b
  {
    if forall i :: 0 <= i < |stats| ==> stats[i].enclosingBlock == b {
      assert forall i :: 0 <= i < |stats| ==> ReboundTo(stats, b)[i] == stats[i];
    }
  }

  /** Re-binding twice is re-binding to the last block. */
  lemma ReboundTwice(stats: seq<VCStat>, a: VCAssertiveBlockBuilder?, b: VCAssertiveBlockBuilder?)
    ensures ReboundTo(ReboundTo(stats, a), b) == ReboundTo(stats, b)
  {
    assert forall i :: 0 <= i < |stats| ==> ReboundTo(ReboundTo(stats, a), b)[i] == ReboundTo(stats, b)[i];
  }
}
