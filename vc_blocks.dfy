/**
 * The proof state the VC rules work on: sequents, rule-backed statements and
 * the assertive block builder with its stack of pending branches.
 *
 * The builder itself is not part of this model's source; it is modelled as a
 * record of what the rules ask of it: the assumptions, confirms and final
 * confirm they add, the statements they install, and a snapshot of all of it.
 */
module AssertiveBlocks {
  import opened Wrappers
  import opened Terms
  import opened SubstMaps
  import opened Substitution

  /** A sequent: the formulas on its left and on its right. */
  datatype Sequent = Sequent(left: seq<PExp>, right: seq<PExp>)

  /** `Sequent.addLeft`: a new sequent with one more formula on the left. */
  function AddLeft(s: Sequent, e: PExp): (r: Sequent)
    ensures r.right == s.right && |r.left| == |s.left| + 1
    ensures r.left[..|s.left|] == s.left && r.left[|s.left|] == e
  {
    Sequent(s.left + [e], s.right)
  }

  /** Each formula substituted under `m`. */
  function SubstituteEach(fs: seq<PExp>, m: SubstMap): (r: seq<PExp>)
    ensures |r| == |fs|
    ensures forall i :: 0 <= i < |fs| ==> r[i] == Substitute(fs[i], m)
  {
    seq(|fs|, i requires 0 <= i < |fs| => Substitute(fs[i], m))
  }

  /** `VCConfirm.withSequentFormulaSubstitution`: every formula of a sequent substituted. */
  function SubstituteSequent(s: Sequent, m: SubstMap): Sequent {
    Sequent(SubstituteEach(s.left, m), SubstituteEach(s.right, m))
  }

  function SubstituteSequents(ss: seq<Sequent>, m: SubstMap): (r: seq<Sequent>)
    ensures |r| == |ss|
    ensures forall k :: 0 <= k < |ss| ==> r[k] == SubstituteSequent(ss[k], m)
  {
    seq(|ss|, k requires 0 <= k < |ss| => SubstituteSequent(ss[k], m))
  }

  /**
   * `VCRuleBackedStat`: a statement, the block it belongs to (null when none
   * was open), the rule that applies it and the terms it carries.
   */
  datatype VCStat = VCStat(enclosingBlock: VCAssertiveBlockBuilder?, rule: string, exps: seq<PExp>)

  /** Every statement copied into the block `b`. */
  function ReboundTo(stats: seq<VCStat>, b: VCAssertiveBlockBuilder?): (r: seq<VCStat>)
    ensures |r| == |stats|
    ensures forall i :: 0 <= i < |stats| ==> r[i].enclosingBlock == b && r[i].(enclosingBlock := stats[i].enclosingBlock) == stats[i]
  {
    seq(|stats|, i requires 0 <= i < |stats| => stats[i].(enclosingBlock := b))
  }

  /** A program symbol the block treats as a free variable. */
  datatype FreeVariable = FreeVariable(name: string)

  /** An immutable copy of a builder's state (`snapshot()` and `build()`). */
  datatype AssertiveBlock = AssertiveBlock(
    name: string,
    freeVars: seq<FreeVariable>,
    assumptions: seq<PExp>,
    confirms: seq<PExp>,
    finalConfirm: seq<Sequent>,
    stats: seq<VCStat>,
    remembered: bool)

  /** `VCAssertiveBlock.VCAssertiveBlockBuilder`. */
  class VCAssertiveBlockBuilder {
    const name: string
    var freeVars: seq<FreeVariable>
    var assumptions: seq<PExp>
    var confirms: seq<PExp>
    var finalConfirm: seq<Sequent>
    var stats: seq<VCStat>
    var remembered: bool

    constructor(blockName: string)
      ensures name == blockName && freeVars == [] && assumptions == [] && confirms == []
      ensures finalConfirm == [] && stats == [] && !remembered
    {
      name := blockName;
      freeVars := [];
      assumptions := [];
      confirms := [];
      finalConfirm := [];
      stats := [];
      remembered := false;
    }

    /** The copying constructor: a new builder in the same state. */
    constructor Copy(b: VCAssertiveBlockBuilder)
      ensures Snapshot() == b.Snapshot()
    {
      name := b.name;
      freeVars := b.freeVars;
      assumptions := b.assumptions;
      confirms := b.confirms;
      finalConfirm := b.finalConfirm;
      stats := b.stats;
      remembered := b.remembered;
    }

    function Snapshot(): (r: AssertiveBlock)
      reads this
      ensures r.name == name && r.assumptions == assumptions && r.finalConfirm == finalConfirm && r.stats == stats
    {
      AssertiveBlock(name, freeVars, assumptions, confirms, finalConfirm, stats, remembered)
    }

    method SetFreeVars(vs: seq<FreeVariable>)
      modifies this`freeVars
      ensures freeVars == vs
    {
      freeVars := vs;
    }

    method Assume(e: PExp)
      modifies this`assumptions
      ensures assumptions == old(assumptions) + [e]
    {
      assumptions := assumptions + [e];
    }

    method AssumeAll(es: seq<PExp>)
      modifies this`assumptions
      ensures assumptions == old(assumptions) + es
    {
      assumptions := assumptions + es;
    }

    method Confirm(e: PExp)
      modifies this`confirms
      ensures confirms == old(confirms) + [e]
    {
      confirms := confirms + [e];
    }

    /** `finalConfirm(e)`: the goal becomes the single sequent proving e from nothing. */
    method FinalConfirmExp(e: PExp)
      modifies this`finalConfirm
      ensures finalConfirm == [Sequent([], [e])]
    {
      finalConfirm := [Sequent([], [e])];
    }

    /** `finalConfirm(sequents)`. */
    method FinalConfirmSequents(ss: seq<Sequent>)
      modifies this`finalConfirm
      ensures finalConfirm == ss
    {
      finalConfirm := ss;
    }

    /** `stats(list)`: the statements are added after those the block still holds. */
    method AddStats(ss: seq<VCStat>)
      modifies this`stats
      ensures stats == old(stats) + ss
    {
      stats := stats + ss;
    }

    method Remember()
      modifies this`remembered
      ensures remembered
    {
      remembered := true;
    }
  }

  /** A `Deque<VCAssertiveBlockBuilder>` used as a stack: the head is the top. */
  class BlockDeque {
    var items: seq<VCAssertiveBlockBuilder>

    constructor()
      ensures items == []
    {
      items := [];
    }

    method Push(b: VCAssertiveBlockBuilder)
      modifies this
      ensures items == [b] + old(items)
    {
      items := [b] + items;
    }

    /** `pop()` throws NoSuchElementException on an empty deque. */
    method Pop() returns (r: Result<VCAssertiveBlockBuilder>)
      modifies this
      ensures old(items) == [] ==> r == Error(NoSuchElement) && items == []
      ensures old(items) != [] ==> r == Success(old(items)[0]) && items == old(items)[1..]
    {
      if items == [] {
        return Error(NoSuchElement);
      }
      r := Success(items[0]);
      items := items[1..];
    }

    /** `peek()` gives null on an empty deque. */
    function Peek(): (r: VCAssertiveBlockBuilder?)
      reads this
      ensures items == [] ==> r == null
      ensures items != [] ==> r == items[0]
    {
      if items == [] then null else items[0]
    }
  }
}
