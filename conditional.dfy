/**
 * `ConditionalApplicationStrategy`: the If and Else rules, which work on
 * one block and do not fork. Both read the condition from an if-statement
 * context only.
 */
module ConditionalRules {
  import opened Wrappers
  import opened Terms
  import opened AssertiveBlocks
  import opened IfElseRule

  /** `getMathCondition` here casts the context to an if-statement, so a while context fails too. */
  function IfCondition(stat: VCIfElse, mathFor: ConditionTranslation): (r: Result<PExp>)
    ensures r.Success? <==> stat.definingContext.IfStmtContext?
    ensures r.Error? ==> r.error == ClassCast
    ensures r.Success? ==> r.value == mathFor(stat.definingContext.ifCondition, stat.progIfCondition)
  {
    if stat.definingContext.IfStmtContext? then Success(mathFor(stat.definingContext.ifCondition, stat.progIfCondition))
    else Error(ClassCast)
  }

  /**
   * `IfApplicationStrategy.applyRule`: assume the condition and add the
   * then-statements as they are after those the block still holds; no other
   * block is made.
   */
  method ApplyIf(block: VCAssertiveBlockBuilder, stat: VCIfElse, mathFor: ConditionTranslation)
    returns (r: Result<AssertiveBlock>)
    modifies block`assumptions, block`stats
    ensures IfCondition(stat, mathFor).Error? ==>
      r == Error(ClassCast) && block.assumptions == old(block.assumptions) && block.stats == old(block.stats)
    ensures IfCondition(stat, mathFor).Success? ==>
      && block.assumptions == old(block.assumptions) + [IfCondition(stat, mathFor).value]
      && block.stats == old(block.stats) + stat.thenStmts
      && r == Success(block.Snapshot())
  {
    var mathCond := IfCondition(stat, mathFor);
    if mathCond.Error? {
      return Error(mathCond.error);
    }
    block.Assume(mathCond.value);
    block.AddStats(stat.thenStmts);
    r := Success(block.Snapshot());
  }

  /**
   * `ElseApplicationStrategy.applyRule`: assume the negated condition and
   * add the else-statements as they are after those the block still holds.
   */
  method ApplyElse(block: VCAssertiveBlockBuilder, stat: VCIfElse, mathFor: ConditionTranslation)
    returns (r: Result<AssertiveBlock>)
    modifies block`assumptions, block`stats
    ensures IfCondition(stat, mathFor).Error? ==>
      r == Error(ClassCast) && block.assumptions == old(block.assumptions) && block.stats == old(block.stats)
    ensures IfCondition(stat, mathFor).Success? ==>
      && block.assumptions == old(block.assumptions) + [NegateMathCondition(IfCondition(stat, mathFor).value)]
      && block.stats == old(block.stats) + stat.elseStmts
      && r == Success(block.Snapshot())
  {
    var mathCond := IfCondition(stat, mathFor);
    if mathCond.Error? {
      return Error(mathCond.error);
    }
    var negatedCondition := NegateMathCondition(mathCond.value);
    block.Assume(negatedCondition);
    block.AddStats(stat.elseStmts);
    r := Success(block.Snapshot());
  }
}

module ConditionalFacts {
  import opened Wrappers
  import opened Terms
  import opened IfElseRule
  import opened ConditionalRules

  /**
   * The two readings of the condition agree on an if-statement; on a while
   * statement only the if/else rule finds one; on anything else both fail.
   */
  lemma ConditionReadingsAgree(stat: VCIfElse, mathFor: ConditionTranslation)
    ensures IfCondition(stat, mathFor).Success? ==> GetMathCondition(stat, mathFor) == IfCondition(stat, mathFor)
    ensures stat.definingContext.WhileStmtContext? ==>
      IfCondition(stat, mathFor).Error? && GetMathCondition(stat, mathFor).Success?
    ensures IfCondition(stat, mathFor).Error? && GetMathCondition(stat, mathFor).Error? <==> stat.definingContext.OtherContext?
  {
  }
}
