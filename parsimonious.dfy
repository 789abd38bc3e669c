/**
 * `ParsimoniousAssumeApplicationStrategy`: how an assume statement changes
 * the goal of its block. Equalities with a variable side may become
 * substitutions, the other conjuncts are kept, and each sequent of the goal
 * takes on its left only the kept assumptions that share a symbol name with
 * it and are not obviously true.
 */
module Parsimonious {
  import opened Wrappers
  import opened JavaLang
  import opened Terms
  import opened Equality
  import opened SubstMaps
  import opened Substitution
  import opened Queries
  import opened AssertiveBlocks
  import opened Assumes
  import TermMethods

  /** `hasVerificationVariable`: a name the verifier made up (`P_Val`, `conc`). */
  predicate HasVerificationVariable(s: PExp) {
    Contains(TopName(s), "P_Val") || Contains(TopName(s), "conc")
  }

  /** Some formula of the list, scanned from the front, is changed by [s ↦ t]. */
  predicate SubstitutionChangesSome(fs: seq<PExp>, s: PExp, t: PExp)
    decreases |fs|
  {
    |fs| > 0 && (!StaysSameOne(fs[0], s, t) || SubstitutionChangesSome(fs[1..], s, t))
  }

  /** `substitutesAny(sequents, s, t)`: some formula on either side of some sequent changes under [s ↦ t]. */
  predicate SubstitutesAny(ss: seq<Sequent>, s: PExp, t: PExp)
    decreases |ss|
  {
    |ss| > 0 && (SequentChanges(ss[0], s, t) || SubstitutesAny(ss[1..], s, t))
  }

  /** Some formula on either side of the sequent changes under [s ↦ t]. */
  predicate SequentChanges(q: Sequent, s: PExp, t: PExp) {
    SubstitutionChangesSome(q.left, s, t) || SubstitutionChangesSome(q.right, s, t)
  }

  /** The three lists `applyRule` sorts the conjuncts of an assumption into. */
  datatype Sorting = Sorting(substitutions: SubstMap, remaining: seq<PExp>, nonEffectual: seq<PExp>)

  const NOTHING_SORTED := Sorting([], [], [])

  /** The two sides of an equality: its subexpressions 1 and 2. */
  function Sides(a: PExp): (r: Result<(PExp, PExp)>)
    ensures r.Success? <==> |SubExpressions(a)| >= 3
    ensures r.Success? ==> r.value == (SubExpressions(a)[1], SubExpressions(a)[2])
    ensures r.Error? ==> r.error == IndexOutOfBounds
  {
    var subs := SubExpressions(a);
    if |subs| < 3 then Error(IndexOutOfBounds) else Success((subs[1], subs[2]))
  }

  /** One pass of `applyRule`'s loop over the conjuncts. */
  function SortAssumption(acc: Sorting, a: PExp, ss: seq<Sequent>, stipulated: bool): Result<Sorting> {
    if stipulated then Success(acc.(remaining := acc.remaining + [a]))
    else if !IsEquality(a) then Success(acc.(remaining := acc.remaining + [a]))
    else
      var sides :- Sides(a);
      var (lhs, rhs) := sides;
      if IsVariable(lhs) && IsVariable(rhs) then
        if HasVerificationVariable(lhs) then Success(acc.(substitutions := Put(acc.substitutions, lhs, rhs)))
        else Success(acc.(remaining := acc.remaining + [a]))
      else if IsVariable(lhs) then
        if SubstitutesAny(ss, lhs, rhs) || HasVerificationVariable(lhs) then
          Success(acc.(substitutions := Put(acc.substitutions, lhs, rhs)))
        else Success(acc.(nonEffectual := acc.nonEffectual + [a]))
      else if IsVariable(rhs) then
        if SubstitutesAny(ss, rhs, lhs) || HasVerificationVariable(rhs) then
          Success(acc.(substitutions := Put(acc.substitutions, rhs, lhs)))
        else Success(acc.(nonEffectual := acc.nonEffectual + [a]))
      else Success(acc.(remaining := acc.remaining + [a]))
  }

  function SortAssumptions(acc: Sorting, xs: seq<PExp>, ss: seq<Sequent>, stipulated: bool): Result<Sorting>
    decreases |xs|
  {
    if |xs| == 0 then Success(acc)
    else
      var next :- SortAssumption(acc, xs[0], ss, stipulated);
      SortAssumptions(next, xs[1..], ss, stipulated)
  }

  /** The assumptions that go on: the non-effectual equalities as they are, then the remaining ones substituted. */
  function NewAssumptions(s: Sorting): seq<PExp> {
    s.nonEffectual + SubstituteEach(s.remaining, s.substitutions)
  }

  /** `getSymbolNamesFromSequent`: the names of every formula, applications and literals excluded. */
  function SequentNames(s: Sequent): set<string> {
    NamesOf(s.left) + NamesOf(s.right)
  }

  /** The names of a list of formulas, applications and literals excluded. */
  function NamesOf(fs: seq<PExp>): (r: set<string>)
    ensures forall i :: 0 <= i < |fs| ==> SymbolNames(fs[i], true, true) <= r
    ensures forall n :: n in r ==> exists i :: 0 <= i < |fs| && n in SymbolNames(fs[i], true, true)
  {
    if |fs| == 0 then {} else NamesOf(fs[..|fs| - 1]) + SymbolNames(fs[|fs| - 1], true, true)
  }

  /** The test an assumption must pass to join a sequent's left side. */
  predicate JoinsSequent(a: PExp, s: Sequent, stipulated: bool) {
    stipulated || (SymbolNames(a, true, true) * SequentNames(s) != {} && !IsObviouslyTrue(a))
  }

  /** One sequent through `performParsimoniousStep`: each assumption in turn, tested against the sequent as grown so far. */
  function StepSequent(s: Sequent, xs: seq<PExp>, stipulated: bool): Sequent
    decreases |xs|
  {
    if |xs| == 0 then s
    else StepSequent(if JoinsSequent(xs[0], s, stipulated) then AddLeft(s, xs[0]) else s, xs[1..], stipulated)
  }

  /** `performParsimoniousStep`: one new sequent per sequent, in order. */
  function ParsimoniousStep(xs: seq<PExp>, ss: seq<Sequent>, stipulated: bool): (r: seq<Sequent>)
    ensures |r| == |ss|
    ensures forall k :: 0 <= k < |ss| ==> r[k] == StepSequent(ss[k], xs, stipulated)
  {
    seq(|ss|, k requires 0 <= k < |ss| => StepSequent(ss[k], xs, stipulated))
  }

  /** A stipulated assumption keeps every conjunct and makes no substitution. */
  lemma {:induction false} StipulatedSortsNothing(acc: Sorting, xs: seq<PExp>, ss: seq<Sequent>)
    ensures SortAssumptions(acc, xs, ss, true) == Success(acc.(remaining := acc.remaining + xs))
    decreases |xs|
  {
    if |xs| == 0 {
      assert acc.remaining + xs == acc.remaining;
    } else {
      StipulatedSortsNothing(acc.(remaining := acc.remaining + [xs[0]]), xs[1..], ss);
      assert acc.remaining + [xs[0]] + xs[1..] == acc.remaining + xs;
    }
  }

  /**
   * The new goal of a block whose goal was `ss` after the assume of
   * `assumeExp`: one sequent per old sequent. Only the sorting of an
   * unstipulated assumption can throw.
   */
  function ParsimoniousGoal(assumeExp: PExp, ss: seq<Sequent>, stipulated: bool): (r: Result<seq<Sequent>>)
    ensures r.Success? ==> |r.value| == |ss|
    ensures stipulated ==> r.Success?
  {
    StipulatedSortsNothing(NOTHING_SORTED, Conjuncts(assumeExp), ss);
    var sorted :- SortAssumptions(NOTHING_SORTED, Conjuncts(assumeExp), ss, stipulated);
    Success(ParsimoniousStep(NewAssumptions(sorted), SubstituteSequents(ss, sorted.substitutions), stipulated))
  }

  /** `substitutesAny`'s inner loop over one side of a sequent, with its early return. */
  method ChangesSome(fs: seq<PExp>, s: PExp, t: PExp) returns (b: bool)
    ensures b == SubstitutionChangesSome(fs, s, t)
  {
    for i := 0 to |fs|
      invariant SubstitutionChangesSome(fs, s, t) == SubstitutionChangesSome(fs[i..], s, t)
    {
      assert fs[i..][1..] == fs[i + 1..];
      if !StaysSameOne(fs[i], s, t) {
        return true;
      }
    }
    return false;
  }

  /** `substitutesAny`: the nested loops with an early return. */
  method SubstitutesAnyOf(ss: seq<Sequent>, s: PExp, t: PExp) returns (b: bool)
    ensures b == SubstitutesAny(ss, s, t)
  {
    for k := 0 to |ss|
      invariant SubstitutesAny(ss, s, t) == SubstitutesAny(ss[k..], s, t)
    {
      assert ss[k..][1..] == ss[k + 1..];
      var left := ChangesSome(ss[k].left, s, t);
      if left {
        assert SequentChanges(ss[k], s, t);
        return true;
      }
      var right := ChangesSome(ss[k].right, s, t);
      if right {
        assert SequentChanges(ss[k], s, t);
        return true;
      }
    }
    return false;
  }

  /** The body of `applyRule`'s loop for one conjunct. */
  method SortOne(acc: Sorting, a: PExp, ss: seq<Sequent>, stipulated: bool) returns (r: Result<Sorting>)
    ensures r == SortAssumption(acc, a, ss, stipulated)
  {
    if stipulated || !IsEquality(a) {
      return Success(acc.(remaining := acc.remaining + [a]));
    }
    var subs := SubExpressions(a);
    if |subs| < 3 {
      return Error(IndexOutOfBounds);
    }
    var lhs := subs[1];
    var rhs := subs[2];
    if IsVariable(lhs) && IsVariable(rhs) {
      if HasVerificationVariable(lhs) {
        r := Success(acc.(substitutions := Put(acc.substitutions, lhs, rhs)));
      } else {
        r := Success(acc.(remaining := acc.remaining + [a]));
      }
    } else if IsVariable(lhs) {
      var changes := SubstitutesAnyOf(ss, lhs, rhs);
      if changes || HasVerificationVariable(lhs) {
        r := Success(acc.(substitutions := Put(acc.substitutions, lhs, rhs)));
      } else {
        r := Success(acc.(nonEffectual := acc.nonEffectual + [a]));
      }
    } else if IsVariable(rhs) {
      var changes := SubstitutesAnyOf(ss, rhs, lhs);
      if changes || HasVerificationVariable(rhs) {
        r := Success(acc.(substitutions := Put(acc.substitutions, rhs, lhs)));
      } else {
        r := Success(acc.(nonEffectual := acc.nonEffectual + [a]));
      }
    } else {
      r := Success(acc.(remaining := acc.remaining + [a]));
    }
  }

  method SortAll(all: seq<PExp>, ss: seq<Sequent>, stipulated: bool) returns (r: Result<Sorting>)
    ensures r == SortAssumptions(NOTHING_SORTED, all, ss, stipulated)
  {
    var sorted := NOTHING_SORTED;
    for i := 0 to |all|
      invariant SortAssumptions(sorted, all[i..], ss, stipulated) == SortAssumptions(NOTHING_SORTED, all, ss, stipulated)
    {
      assert all[i..][0] == all[i] && all[i..][1..] == all[i + 1..];
      var next := SortOne(sorted, all[i], ss, stipulated);
      if next.Error? {
        return Error(next.error);
      }
      sorted := next.value;
    }
    assert all[|all|..] == [];
    r := Success(sorted);
  }

  /** `getSymbolNamesFromSequent`. */
  method SequentSymbolNames(s: Sequent) returns (result: set<string>)
    ensures result == SequentNames(s)
  {
    result := {};
    for i := 0 to |s.left|
      invariant result == NamesOf(s.left[..i])
    {
      assert s.left[..i + 1][..i] == s.left[..i];
      result := result + SymbolNames(s.left[i], true, true);
    }
    assert s.left[..|s.left|] == s.left;
    var fromRight := {};
    for i := 0 to |s.right|
      invariant fromRight == NamesOf(s.right[..i])
    {
      assert s.right[..i + 1][..i] == s.right[..i];
      fromRight := fromRight + SymbolNames(s.right[i], true, true);
    }
    assert s.right[..|s.right|] == s.right;
    result := result + fromRight;
  }

  method StepOneSequent(s: Sequent, xs: seq<PExp>, stipulated: bool) returns (sequent: Sequent)
    ensures sequent == StepSequent(s, xs, stipulated)
  {
    sequent := s;
    for i := 0 to |xs|
      invariant StepSequent(sequent, xs[i..], stipulated) == StepSequent(s, xs, stipulated)
    {
      assert xs[i..][0] == xs[i] && xs[i..][1..] == xs[i + 1..];
      var intersection := SymbolNames(xs[i], true, true);
      var names := SequentSymbolNames(sequent);
      intersection := intersection * names;
      if (intersection != {} && !IsObviouslyTrue(xs[i])) || stipulated {
        sequent := AddLeft(sequent, xs[i]);
      }
    }
    assert xs[|xs|..] == [];
  }

  /** `performParsimoniousStep`. */
  method PerformParsimoniousStep(xs: seq<PExp>, ss: seq<Sequent>, stipulated: bool) returns (result: seq<Sequent>)
    ensures result == ParsimoniousStep(xs, ss, stipulated)
  {
    result := [];
    for k := 0 to |ss|
      invariant |result| == k
      invariant forall j :: 0 <= j < k ==> result[j] == StepSequent(ss[j], xs, stipulated)
    {
      var sequent := StepOneSequent(ss[k], xs, stipulated);
      result := result + [sequent];
    }
  }

  /** The part of `applyRule` that computes the new goal. */
  method NewGoal(assumeExp: PExp, ss: seq<Sequent>, stipulated: bool) returns (r: Result<seq<Sequent>>)
    ensures r == ParsimoniousGoal(assumeExp, ss, stipulated)
  {
    var allAssumptions := TermMethods.SplitIntoConjuncts(assumeExp);
    var existingSequents := ss;
    var sorted := SortAll(allAssumptions, existingSequents, stipulated);
    if sorted.Error? {
      return Error(sorted.error);
    }
    var s := sorted.value;
    var withEqualSubstitutions := WithEqualSubstitutions(s);
    var substitutedConfirm := SubstituteSequents(existingSequents, s.substitutions);
    var newSequents := PerformParsimoniousStep(withEqualSubstitutions, substitutedConfirm, stipulated);
    r := Success(newSequents);
  }

  /** The new assumptions: the set-aside equalities, then each kept conjunct under the substitutions, in order. */
  method WithEqualSubstitutions(s: Sorting) returns (r: seq<PExp>)
    ensures r == NewAssumptions(s)
  {
    r := s.nonEffectual;
    for i := 0 to |s.remaining|
      invariant r == s.nonEffectual + SubstituteEach(s.remaining[..i], s.substitutions)
    {
      assert SubstituteEach(s.remaining[..i + 1], s.substitutions)
          == SubstituteEach(s.remaining[..i], s.substitutions) + [Substitute(s.remaining[i], s.substitutions)];
      r := r + [Substitute(s.remaining[i], s.substitutions)];
    }
    assert s.remaining[..|s.remaining|] == s.remaining;
  }

  /**
   * `applyRule`: the block's goal becomes the parsimonious step of the new
   * assumptions over the substituted goal, and the result is the block's
   * snapshot. An exception leaves the goal as it was.
   */
  method ApplyRule(branches: BlockDeque, block: VCAssertiveBlockBuilder, stat: VCAssume) returns (r: Result<AssertiveBlock>)
    modifies block`finalConfirm
    ensures var goal := ParsimoniousGoal(stat.assumeExp, old(block.finalConfirm), stat.isStipulatedAssumption);
      if goal.Error? then r == Error(goal.error) && block.finalConfirm == old(block.finalConfirm)
      else block.finalConfirm == goal.value && r == Success(block.Snapshot())
  {
    var goal := NewGoal(stat.assumeExp, block.finalConfirm, stat.isStipulatedAssumption);
    if goal.Error? {
      return Error(goal.error);
    }
    block.FinalConfirmSequents(goal.value);
    r := Success(block.Snapshot());
  }
}

module ParsimoniousFacts {
  import opened Wrappers
  import opened Terms
  import opened Equality
  import opened SubstMaps
  import opened Substitution
  import opened Queries
  import opened AssertiveBlocks
  import opened Parsimonious

  /** A stipulated step adds every assumption, in order, to the left of a sequent. */
  lemma {:induction false} StipulatedStepAddsAll(s: Sequent, xs: seq<PExp>)
    ensures StepSequent(s, xs, true) == Sequent(s.left + xs, s.right)
    decreases |xs|
  {
    if |xs| == 0 {
      assert s.left + xs == s.left;
    } else {
      var grown := AddLeft(s, xs[0]);
      StipulatedStepAddsAll(grown, xs[1..]);
      assert grown.left + xs[1..] == s.left + xs;
    }
  }

  /**
   * A stipulated assume puts all its conjuncts on the left of every
   * sequent; the only substitution applied is the one under the empty map.
   */
  lemma StipulatedGoal(assumeExp: PExp, ss: seq<Sequent>)
    ensures ParsimoniousGoal(assumeExp, ss, true).Success?
    ensures var g := ParsimoniousGoal(assumeExp, ss, true).value;
      |g| == |ss| && forall k :: 0 <= k < |ss| ==>
        g[k] == Sequent(SubstituteEach(ss[k].left, []) + SubstituteEach(Conjuncts(assumeExp), []), SubstituteEach(ss[k].right, []))
  {
    var added := SubstituteEach(Conjuncts(assumeExp), []);
    StipulatedGoalIsStep(assumeExp, ss);
    forall k | 0 <= k < |ss|
      ensures StepSequent(SubstituteSequent(ss[k], []), added, true)
           == Sequent(SubstituteEach(ss[k].left, []) + added, SubstituteEach(ss[k].right, []))
    {
      StipulatedStepAddsAll(SubstituteSequent(ss[k], []), added);
    }
  }

  /** A stipulated goal is one parsimonious step, with every conjunct, over the sequents rewritten by no substitution. */
  lemma StipulatedGoalIsStep(assumeExp: PExp, ss: seq<Sequent>)
    ensures ParsimoniousGoal(assumeExp, ss, true)
         == Success(ParsimoniousStep(SubstituteEach(Conjuncts(assumeExp), []), SubstituteSequents(ss, []), true))
  {
    var xs := Conjuncts(assumeExp);
    StipulatedSortsNothing(NOTHING_SORTED, xs, ss);
    assert [] + xs == xs;
    assert [] + SubstituteEach(xs, []) == SubstituteEach(xs, []);
  }

  /** The shape of an equality that `applyRule` sets aside as having no effect on the goal. */
  predicate NonEffectual(a: PExp, ss: seq<Sequent>) {
    && IsEquality(a) && |SubExpressions(a)| >= 3
    && var lhs := SubExpressions(a)[1]; var rhs := SubExpressions(a)[2];
    || (IsVariable(lhs) && !IsVariable(rhs) && !SubstitutesAny(ss, lhs, rhs) && !HasVerificationVariable(lhs))
    || (!IsVariable(lhs) && IsVariable(rhs) && !SubstitutesAny(ss, rhs, lhs) && !HasVerificationVariable(rhs))
  }

  /** One sorting step keeps the old substitution keys and adds at most a variable. */
  lemma SortOneKeys(acc: Sorting, a: PExp, ss: seq<Sequent>)
    requires SortAssumption(acc, a, ss, false).Success?
    ensures var next := SortAssumption(acc, a, ss, false).value;
      forall j :: 0 <= j < |next.substitutions| ==>
        next.substitutions[j].0 in Keys(acc.substitutions) || IsVariable(next.substitutions[j].0)
  {
    var next := SortAssumption(acc, a, ss, false).value;
    forall j | 0 <= j < |next.substitutions| && !IsVariable(next.substitutions[j].0)
      ensures next.substitutions[j].0 in Keys(acc.substitutions)
    {
      if next.substitutions != acc.substitutions {
        var sides := Sides(a).value;
        var key := if IsVariable(sides.0) then sides.0 else sides.1;
        assert next.substitutions == Put(acc.substitutions, key, if IsVariable(sides.0) then sides.1 else sides.0);
        assert j < |acc.substitutions|;
      }
      assert next.substitutions[j].0 == acc.substitutions[j].0;
    }
  }

  /**
   * Where the conjuncts go: kept ones and set-aside ones come from the
   * input, set-aside ones are equalities whose substitution would change
   * no formula of the goal, every non-equality is kept, and every
   * substitution key is a variable.
   */
  lemma {:induction false} SortingFacts(acc: Sorting, xs: seq<PExp>, ss: seq<Sequent>)
    requires SortAssumptions(acc, xs, ss, false).Success?
    ensures var r := SortAssumptions(acc, xs, ss, false).value;
      && (forall x :: x in r.remaining ==> x in acc.remaining || x in xs)
      && (forall x :: x in acc.remaining ==> x in r.remaining)
      && (forall x :: x in r.nonEffectual ==> x in acc.nonEffectual || (x in xs && NonEffectual(x, ss)))
      && (forall x :: x in xs && !IsEquality(x) ==> x in r.remaining)
      && (forall j :: 0 <= j < |r.substitutions| ==>
            r.substitutions[j].0 in Keys(acc.substitutions) || IsVariable(r.substitutions[j].0))
    decreases |xs|
  {
    if |xs| > 0 {
      var next := SortAssumption(acc, xs[0], ss, false).value;
      SortingFacts(next, xs[1..], ss);
      var r := SortAssumptions(acc, xs, ss, false).value;
      assert r == SortAssumptions(next, xs[1..], ss, false).value;
      SortOneKeys(acc, xs[0], ss);
      forall x | x in xs && !IsEquality(x)
        ensures x in r.remaining
      {
        if x != xs[0] {
          assert x in xs[1..];
        }
      }
    }
  }

  lemma SortSingleton(a: PExp, ss: seq<Sequent>)
    ensures SortAssumptions(NOTHING_SORTED, [a], ss, false) == SortAssumption(NOTHING_SORTED, a, ss, false)
  {
    assert [a][0] == a && [a][1..] == [];
  }

  lemma PutIntoEmpty(key: PExp, v: PExp)
    ensures Put([], key, v) == [(key, v)]
  {
    assert FindKey([], key) == None;
  }

  /** An equality between two variables becomes lhs ↦ rhs exactly when lhs is a verification variable; otherwise it is kept. */
  lemma VariableEquality(a: PExp, ss: seq<Sequent>)
    requires IsEquality(a) && Sides(a).Success?
    requires IsVariable(Sides(a).value.0) && IsVariable(Sides(a).value.1)
    ensures var (lhs, rhs) := Sides(a).value;
      SortAssumptions(NOTHING_SORTED, [a], ss, false)
        == Success(if HasVerificationVariable(lhs) then Sorting([(lhs, rhs)], [], []) else Sorting([], [a], []))
  {
    SortSingleton(a, ss);
    assert [] + [a] == [a];
    var (lhs, rhs) := Sides(a).value;
    PutIntoEmpty(lhs, rhs);
  }

  /**
   * An equality whose lhs alone is a variable becomes lhs ↦ rhs when that
   * changes some formula of the goal or lhs is a verification variable;
   * otherwise it is set aside as non-effectual.
   */
  lemma VariableLeftSide(a: PExp, ss: seq<Sequent>)
    requires IsEquality(a) && Sides(a).Success?
    requires IsVariable(Sides(a).value.0) && !IsVariable(Sides(a).value.1)
    ensures var (lhs, rhs) := Sides(a).value;
      SortAssumptions(NOTHING_SORTED, [a], ss, false)
        == Success(if SubstitutesAny(ss, lhs, rhs) || HasVerificationVariable(lhs) then Sorting([(lhs, rhs)], [], [])
                   else Sorting([], [], [a]))
  {
    SortSingleton(a, ss);
    assert [] + [a] == [a];
    var (lhs, rhs) := Sides(a).value;
    PutIntoEmpty(lhs, rhs);
  }

  /** The symmetric case: rhs ↦ lhs. */
  lemma VariableRightSide(a: PExp, ss: seq<Sequent>)
    requires IsEquality(a) && Sides(a).Success?
    requires !IsVariable(Sides(a).value.0) && IsVariable(Sides(a).value.1)
    ensures var (lhs, rhs) := Sides(a).value;
      SortAssumptions(NOTHING_SORTED, [a], ss, false)
        == Success(if SubstitutesAny(ss, rhs, lhs) || HasVerificationVariable(rhs) then Sorting([(rhs, lhs)], [], [])
                   else Sorting([], [], [a]))
  {
    SortSingleton(a, ss);
    assert [] + [a] == [a];
    var (lhs, rhs) := Sides(a).value;
    PutIntoEmpty(rhs, lhs);
  }

  /** An equality with no variable side, like any non-equality, is kept. */
  lemma NoVariableSide(a: PExp, ss: seq<Sequent>)
    requires !IsEquality(a) || (Sides(a).Success? && !IsVariable(Sides(a).value.0) && !IsVariable(Sides(a).value.1))
    ensures SortAssumptions(NOTHING_SORTED, [a], ss, false) == Success(Sorting([], [a], []))
  {
    SortSingleton(a, ss);
    assert [] + [a] == [a];
  }

  /**
   * An equality written as a symbol `=`(x, y) has only two subexpressions,
   * so reading its sides throws IndexOutOfBoundsException.
   */
  lemma SymbolEqualityThrows(a: PExp, ss: seq<Sequent>)
    requires a.PSymbol? && a.name == "=" && |a.args| == 2
    ensures SortAssumptions(NOTHING_SORTED, [a], ss, false) == Error(IndexOutOfBounds)
  {
    SortSingleton(a, ss);
  }

  /**
   * A step keeps the right side of a sequent and its left side as a prefix;
   * what it adds comes from the assumptions and, unless stipulated, is not
   * obviously true.
   */
  lemma {:induction false} StepSequentFacts(s: Sequent, xs: seq<PExp>, stipulated: bool)
    ensures var r := StepSequent(s, xs, stipulated);
      && r.right == s.right
      && |s.left| <= |r.left|
      && r.left[..|s.left|] == s.left
      && forall i :: |s.left| <= i < |r.left| ==> r.left[i] in xs && (stipulated || !IsObviouslyTrue(r.left[i]))
    decreases |xs|
  {
    if |xs| > 0 {
      var joins := JoinsSequent(xs[0], s, stipulated);
      var s' := if joins then AddLeft(s, xs[0]) else s;
      StepSequentFacts(s', xs[1..], stipulated);
      var r := StepSequent(s, xs, stipulated);
      assert r == StepSequent(s', xs[1..], stipulated);
      assert r.left[..|s.left|] == s'.left[..|s.left|];
      forall i | |s.left| <= i < |r.left|
        ensures r.left[i] in xs && (stipulated || !IsObviouslyTrue(r.left[i]))
      {
        if i >= |s'.left| {
          assert r.left[i] in xs[1..];
        } else {
          assert r.left[i] == r.left[..|s'.left|][i] == s'.left[i] == xs[0];
        }
      }
    }
  }

  /** Assumptions that share no name with a sequent never join it, so a non-stipulated step leaves that sequent as it is. */
  lemma {:induction false} IrrelevantAssumptionsDropped(s: Sequent, xs: seq<PExp>)
    requires forall i :: 0 <= i < |xs| ==> SymbolNames(xs[i], true, true) * SequentNames(s) == {}
    ensures StepSequent(s, xs, false) == s
    decreases |xs|
  {
    if |xs| > 0 {
      assert !JoinsSequent(xs[0], s, false);
      IrrelevantAssumptionsDropped(s, xs[1..]);
    }
  }

  /** An obviously true assumption never joins a sequent in a non-stipulated step. */
  lemma ObviouslyTrueNeverJoins(a: PExp, s: Sequent)
    requires IsObviouslyTrue(a)
    ensures StepSequent(s, [a], false) == s
  {
    assert [a][0] == a && [a][1..] == [];
  }
}
