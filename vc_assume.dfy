/** `VCAssume`: the assume statement of an assertive block. */
module Assumes {
  import opened Wrappers
  import opened JavaLang
  import opened Terms
  import opened Queries
  import opened AssertiveBlocks

  /** The rule an assume statement is applied with. */
  datatype AssumeStrategy = ParsimoniousAssume | OtherAssumeStrategy(description: string)

  datatype VCAssume = VCAssume(
    block: VCAssertiveBlockBuilder?,
    strategy: AssumeStrategy,
    isStipulatedAssumption: bool,
    isNotice: bool,
    assumeExp: PExp)

  /**
   * The three-argument constructor: whatever `stipulate` says, the assume is
   * neither stipulated nor a notice and is applied parsimoniously.
   */
  function NewAssume(block: VCAssertiveBlockBuilder?, stipulate: bool, assumeExp: PExp): (r: VCAssume)
    ensures r.block == block && r.assumeExp == assumeExp
    ensures r.strategy == ParsimoniousAssume && !r.isStipulatedAssumption && !r.isNotice
  {
    VCAssume(block, ParsimoniousAssume, false, false, assumeExp)
  }

  /** `copyWithEnclosingBlock(b)`: only the block changes, so the text stays the same. */
  function CopyWithEnclosingBlock(a: VCAssume, b: VCAssertiveBlockBuilder?): (r: VCAssume)
    ensures r.block == b
    ensures r.(block := a.block) == a
    ensures AssumeToString(r) == AssumeToString(a)
  {
    a.(block := b)
  }

  /** The keyword `toString` puts in front of the expression. */
  function Keyword(a: VCAssume): string {
    if a.isNotice then "Notice " else if a.isStipulatedAssumption then "Stipulated_Assume " else "Assume "
  }

  /** `toString()`: None when the expression cannot be printed. */
  function AssumeToString(a: VCAssume): (r: Option<string>)
    ensures r.Some? <==> ToString(a.assumeExp, false).Some?
    ensures r.Some? && a.isNotice ==> r.value == "Notice " + ToString(a.assumeExp, false).value + ";"
    ensures r.Some? && !a.isNotice && a.isStipulatedAssumption ==>
      r.value == "Stipulated_Assume " + ToString(a.assumeExp, false).value + ";"
    ensures r.Some? && !a.isNotice && !a.isStipulatedAssumption ==>
      r.value == "Assume " + ToString(a.assumeExp, false).value + ";"
  {
    var exp :- ToString(a.assumeExp, false);
    Some(Keyword(a) + exp + ";")
  }
}

module AssumesFacts {
  import opened Wrappers
  import opened Terms
  import opened Queries
  import opened AssertiveBlocks
  import opened Assumes

  /**
   * The text tells the three kinds apart: two assumes that print the same
   * agree on being a notice and, when they are not, on being stipulated.
   */
  lemma TextDeterminesKind(a: VCAssume, b: VCAssume)
    requires AssumeToString(a).Some? && AssumeToString(a) == AssumeToString(b)
    ensures a.isNotice == b.isNotice
    ensures !a.isNotice ==> a.isStipulatedAssumption == b.isStipulatedAssumption
  {
    var ta := AssumeToString(a).value;
    assert ta[0] == Keyword(a)[0];
    assert ta[0] == Keyword(b)[0];
  }
}
