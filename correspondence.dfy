/**
 * `CorrespondenceReducingVisitor`: replaces the conceptual variables of a
 * term by what a representation's correspondence says they are, after a
 * basic beta reduction of the `conc.` functions the correspondence defines
 * by lambdas.
 */
module Correspondence {
  import opened Wrappers
  import opened JavaLang
  import opened MathTypes
  import opened Terms
  import opened Equality
  import opened SubstMaps
  import opened Substitution
  import opened Queries

  /**
   * The symbols a visit ends, in the order `endPSymbol` is called on them:
   * a symbol after its arguments, an application's function portion before
   * its arguments, a segment list's segments in order; a quantified node and
   * a lambda are not entered.
   */
  function VisitedSymbols(e: PExp): seq<PExp>
    decreases Depth(e), 1
  {
    DepthOfChildren(e);
    match e
    case PSymbol(_, _, _, _, args, _, _, _, _, _, _) => VisitedAll(args, Depth(e)) + [e]
    case PApply(fn, args, _, _, _, _) => VisitedSymbols(fn) + VisitedAll(args, Depth(e))
    case PSegments(segs, _) => VisitedAll(segs, Depth(e))
    case PQuantified(_, _, _) => []
    case PLambda(_, _, _, _) => []
  }

  function VisitedAll(xs: seq<PExp>, bound: nat): seq<PExp>
    requires forall i :: 0 <= i < |xs| ==> Depth(xs[i]) < bound
    decreases bound, 0, |xs|
  {
    if |xs| == 0 then [] else VisitedSymbols(xs[0]) + VisitedAll(xs[1..], bound)
  }

  /** A function application whose name starts with `conc.`: the only symbols beta reduction looks at. */
  predicate IsConceptualApplication(e: PExp) {
    e.PSymbol? && |e.args| > 0 && StartsWith(e.name, "conc.")
  }

  /** The nullary symbol the builder makes from a conceptual application to look it up. */
  function PlainForm(e: PExp): (r: PExp)
    requires e.PSymbol?
    ensures IsVariable(r) && r.name == e.name && r.incoming == e.incoming && r.quant == QNone
    ensures r.mathType == e.mathType && r.mathTypeValue == e.mathTypeValue
  {
    PSymbol(e.name, e.name, e.name, None, [], false, e.incoming, QNone, SPrefix, e.mathType, e.mathTypeValue)
  }

  /** Is `e` an application the map defines, so that its lookup is consulted? */
  predicate IsReducible(m: SubstMap, e: PExp) {
    IsConceptualApplication(e) && Get(m, PlainForm(e)).Some?
  }

  /**
   * `BasicBetaReducingVisitor.endPSymbol`: a defined conceptual application
   * is replaced in the working term by its lambda's body with the
   * parameters replaced by the arguments. The definition must be a lambda
   * (ClassCastException) with as many parameters as arguments
   * (IllegalArgumentException).
   */
  function BetaStep(m: SubstMap, cur: PExp, e: PExp): (r: Result<PExp>)
    ensures !IsReducible(m, e) ==> r == Success(cur)
    ensures r == Error(ClassCast) <==> IsReducible(m, e) && !Get(m, PlainForm(e)).value.PLambda?
    ensures IsReducible(m, e) && Get(m, PlainForm(e)).value.PLambda? ==>
      var l := Get(m, PlainForm(e)).value;
      if |l.params| != |e.args| then r.Error? && r.error.IllegalArgument?
      else r == Success(SubstituteOne(cur, e, Substitute(l.body, ZipMap([], l.params, e.args))))
  {
    if !IsReducible(m, e) then Success(cur)
    else
      var l := Get(m, PlainForm(e)).value;
      if !l.PLambda? then Error(ClassCast)
      else
        var newBody :- SubstituteZip(l.body, l.params, e.args);
        Success(SubstituteOne(cur, e, newBody))
  }

  /** The beta steps of a whole visit, stopping at the first exception. */
  function BetaFold(m: SubstMap, cur: PExp, syms: seq<PExp>): Result<PExp>
    decreases |syms|
  {
    if |syms| == 0 then Success(cur)
    else
      var next :- BetaStep(m, cur, syms[0]);
      BetaFold(m, next, syms[1..])
  }

  /** `betaReduce(substitutions, start)`: the visit of `start` by a beta reducer that starts at `start`. */
  function BetaReduce(m: SubstMap, start: PExp): Result<PExp> {
    BetaFold(m, start, VisitedSymbols(start))
  }

  /** `endPSymbol`: a visited symbol that is a key is substituted by its value in the working term. */
  function CorrespondenceStep(m: SubstMap, cur: PExp, e: PExp): (r: PExp)
    ensures Get(m, e).None? ==> r == cur
    ensures Get(m, e).Some? ==> r == SubstituteOne(cur, e, Get(m, e).value)
  {
    match Get(m, e)
    case None => cur
    case Some(v) => SubstituteOne(cur, e, v)
  }

  function CorrespondenceFold(m: SubstMap, cur: PExp, syms: seq<PExp>): PExp
    decreases |syms|
  {
    if |syms| == 0 then cur else CorrespondenceFold(m, CorrespondenceStep(m, cur, syms[0]), syms[1..])
  }

  /** The map entry a conjunct of the correspondence contributes: subexpression 0, a symbol, to subexpression 1. */
  function EntryOf(c: PExp): (r: Result<(PExp, PExp)>)
    ensures r.Success? <==> |SubExpressions(c)| >= 2 && SubExpressions(c)[0].PSymbol?
    ensures r.Success? ==> r.value == (SubExpressions(c)[0], SubExpressions(c)[1])
    ensures r.Error? ==> r.error == (if |SubExpressions(c)| > 0 && !SubExpressions(c)[0].PSymbol? then ClassCast else IndexOutOfBounds)
  {
    var subs := SubExpressions(c);
    if |subs| == 0 then Error(IndexOutOfBounds)
    else if !subs[0].PSymbol? then Error(ClassCast)
    else if |subs| < 2 then Error(IndexOutOfBounds)
    else Success((subs[0], subs[1]))
  }

  /** The constructor's loop: each conjunct's entry put in turn. */
  function PutEntries(m: SubstMap, cs: seq<PExp>): Result<SubstMap>
    decreases |cs|
  {
    if |cs| == 0 then Success(m)
    else
      var entry :- EntryOf(cs[0]);
      PutEntries(Put(m, entry.0, entry.1), cs[1..])
  }

  lemma PutEntriesStep(m: SubstMap, cs: seq<PExp>)
    requires |cs| > 0
    ensures EntryOf(cs[0]).Error? ==> PutEntries(m, cs) == Error(EntryOf(cs[0]).error)
    ensures EntryOf(cs[0]).Success? ==>
      PutEntries(m, cs) == PutEntries(Put(m, EntryOf(cs[0]).value.0, EntryOf(cs[0]).value.1), cs[1..])
  {
  }

  /** The substitutions the first constructor builds from a correspondence. */
  function CorrespondenceMap(corr: PExp): Result<SubstMap> {
    PutEntries([], Conjuncts(corr))
  }

  /**
   * The reduced term a visitor built from the map `m` and the term `start`
   * holds after `start.accept(visitor)`: the beta-reduced start with every
   * visited key substituted.
   */
  function ReduceWith(m: SubstMap, start: PExp): Result<PExp> {
    var reduced :- BetaReduce(m, start);
    Success(CorrespondenceFold(m, reduced, VisitedSymbols(start)))
  }

  /** Without a defined conceptual application among the symbols, beta reduction changes nothing. */
  lemma {:induction false} BetaFoldWithoutReducible(m: SubstMap, cur: PExp, syms: seq<PExp>)
    requires forall i :: 0 <= i < |syms| ==> !IsReducible(m, syms[i])
    ensures BetaFold(m, cur, syms) == Success(cur)
    decreases |syms|
  {
    if |syms| > 0 {
      BetaFoldWithoutReducible(m, cur, syms[1..]);
    }
  }

  lemma {:induction false} CorrespondenceFoldEmpty(cur: PExp, syms: seq<PExp>)
    ensures CorrespondenceFold([], cur, syms) == cur
    decreases |syms|
  {
    if |syms| > 0 {
      CorrespondenceFoldEmpty(cur, syms[1..]);
    }
  }

  /** With no substitutions the visitor hands back the term it was started on. */
  lemma ReduceWithEmptyMap(start: PExp)
    ensures ReduceWith([], start) == Success(start)
  {
    BetaFoldWithoutReducible([], start, VisitedSymbols(start));
    CorrespondenceFoldEmpty(start, VisitedSymbols(start));
  }

  /** The map building fails exactly when some conjunct has no entry, with the first such conjunct's exception. */
  lemma {:induction false} PutEntriesFails(m: SubstMap, cs: seq<PExp>)
    ensures PutEntries(m, cs).Error? <==> exists i :: 0 <= i < |cs| && EntryOf(cs[i]).Error?
    ensures PutEntries(m, cs).Error? ==>
      exists i :: 0 <= i < |cs| && EntryOf(cs[i]).Error? && PutEntries(m, cs).error == EntryOf(cs[i]).error
    decreases |cs|
  {
    if |cs| > 0 {
      if EntryOf(cs[0]).Success? {
        var e := EntryOf(cs[0]).value;
        PutEntriesFails(Put(m, e.0, e.1), cs[1..]);
        if PutEntries(m, cs).Error? {
          var i :| 0 <= i < |cs[1..]| && EntryOf(cs[1..][i]).Error? && PutEntries(m, cs).error == EntryOf(cs[1..][i]).error;
          assert cs[1..][i] == cs[i + 1];
        }
        forall i | 0 <= i < |cs| && EntryOf(cs[i]).Error?
          ensures PutEntries(m, cs).Error?
        {
          assert i > 0 && cs[1..][i - 1] == cs[i];
        }
      }
    }
  }

  /**
   * `withCorrespondencePartsSubstituted(start, correspondence)`. A conjunct
   * without an entry makes it throw that conjunct's exception; a
   * correspondence with no conjuncts leaves the start term as it is.
   */
  function CorrespondenceReduce(corr: PExp, start: PExp): (r: Result<PExp>)
    ensures (exists i :: 0 <= i < |Conjuncts(corr)| && EntryOf(Conjuncts(corr)[i]).Error?) ==>
      r.Error? && exists i :: 0 <= i < |Conjuncts(corr)| && EntryOf(Conjuncts(corr)[i]).Error?
                      && r.error == EntryOf(Conjuncts(corr)[i]).error
    ensures Conjuncts(corr) == [] ==> r == Success(start)
  {
    PutEntriesFails([], Conjuncts(corr));
    ReduceWithEmptyMap(start);
    var m :- CorrespondenceMap(corr);
    ReduceWith(m, start)
  }

  /** The visitor result of a step that may have failed. */
  function AsResult(failure: Option<Failure>, x: PExp): Result<PExp> {
    if failure.Some? then Error(failure.value) else Success(x)
  }

  /** `BasicBetaReducingVisitor`: `betaReducedExp` is the working term. */
  class BasicBetaReducingVisitor {
    const substitutions: SubstMap
    var betaReducedExp: PExp

    constructor(m: SubstMap, start: PExp)
      ensures substitutions == m && betaReducedExp == start
    {
      substitutions := m;
      betaReducedExp := start;
    }

    method EndPSymbol(e: PExp) returns (failure: Option<Failure>)
      modifies this`betaReducedExp
      ensures AsResult(failure, betaReducedExp) == BetaStep(substitutions, old(betaReducedExp), e)
    {
      if !IsConceptualApplication(e) {
        return None;
      }
      var asPlainFunction := PlainForm(e);
      var defined := Get(substitutions, asPlainFunction);
      if defined.None? {
        return None;
      }
      var l := defined.value;
      if !l.PLambda? {
        return Some(ClassCast);
      }
      var newBody := SubstituteZip(l.body, l.params, e.args);
      if newBody.Error? {
        return Some(newBody.error);
      }
      betaReducedExp := SubstituteOne(betaReducedExp, e, newBody.value);
      failure := None;
    }

    /** `start.accept(this)`: `endPSymbol` on every visited symbol in order. */
    method Accept(start: PExp) returns (failure: Option<Failure>)
      modifies this`betaReducedExp
      ensures AsResult(failure, betaReducedExp) == BetaFold(substitutions, old(betaReducedExp), VisitedSymbols(start))
    {
      var syms := VisitedSymbols(start);
      var i := 0;
      while i < |syms|
        invariant 0 <= i <= |syms|
        invariant BetaFold(substitutions, betaReducedExp, syms[i..]) == BetaFold(substitutions, old(betaReducedExp), syms)
      {
        ghost var before := betaReducedExp;
        assert syms[i..][0] == syms[i] && syms[i..][1..] == syms[i + 1..];
        failure := EndPSymbol(syms[i]);
        if failure.Some? {
          return;
        }
        assert BetaStep(substitutions, before, syms[i]) == Success(betaReducedExp);
        i := i + 1;
      }
      failure := None;
    }
  }

  /** `betaReduce`: a fresh beta reducer visits the start term. */
  method BetaReduceWith(m: SubstMap, start: PExp) returns (r: Result<PExp>)
    ensures r == BetaReduce(m, start)
  {
    var v := new BasicBetaReducingVisitor(m, start);
    var failure := v.Accept(start);
    r := AsResult(failure, v.betaReducedExp);
  }

  /** The first constructor's loop over the correspondence's conjuncts. */
  method BuildSubstitutions(corr: PExp) returns (r: Result<SubstMap>)
    ensures r == CorrespondenceMap(corr)
  {
    var cs := Conjuncts(corr);
    var substitutions: SubstMap := [];
    var i := 0;
    while i < |cs|
      invariant 0 <= i <= |cs|
      invariant PutEntries(substitutions, cs[i..]) == PutEntries([], cs)
    {
      ghost var rest := cs[i..];
      assert rest[0] == cs[i] && rest[1..] == cs[i + 1..];
      PutEntriesStep(substitutions, rest);
      var entry := EntryOf(cs[i]);
      if entry.Error? {
        return Error(entry.error);
      }
      substitutions := Put(substitutions, entry.value.0, entry.value.1);
      i := i + 1;
    }
    assert cs[i..] == [];
    r := Success(substitutions);
  }

  /** `CorrespondenceReducingVisitor`: `startingExp` is the working term. */
  class CorrespondenceReducingVisitor {
    var substitutions: SubstMap
    var startingExp: PExp

    constructor Of(m: SubstMap, reduced: PExp)
      ensures substitutions == m && startingExp == reduced
    {
      substitutions := m;
      startingExp := reduced;
    }

    /**
     * The constructor from a correspondence: its conjuncts give the map, and
     * the start term is beta-reduced under it. Putting the reducer's map back
     * into the visitor's own map changes nothing, as it is the same map.
     */
    static method FromCorrespondence(corr: PExp, start: PExp) returns (r: Result<CorrespondenceReducingVisitor>)
      ensures match CorrespondenceMap(corr)
        case Error(f) => r == Error(f)
        case Success(m) => match BetaReduce(m, start)
          case Error(f) => r == Error(f)
          case Success(b) => r.Success? && fresh(r.value) && r.value.substitutions == m && r.value.startingExp == b
    {
      var m := BuildSubstitutions(corr);
      if m.Error? {
        return Error(m.error);
      }
      var reduced := BetaReduceWith(m.value, start);
      if reduced.Error? {
        return Error(reduced.error);
      }
      var v := new CorrespondenceReducingVisitor.Of(m.value, reduced.value);
      r := Success(v);
    }

    /** The constructor from a map: the map is used as it is. */
    static method FromMap(m: SubstMap, start: PExp) returns (r: Result<CorrespondenceReducingVisitor>)
      ensures match BetaReduce(m, start)
        case Error(f) => r == Error(f)
        case Success(b) => r.Success? && fresh(r.value) && r.value.substitutions == m && r.value.startingExp == b
    {
      var reduced := BetaReduceWith(m, start);
      if reduced.Error? {
        return Error(reduced.error);
      }
      var v := new CorrespondenceReducingVisitor.Of(m, reduced.value);
      r := Success(v);
    }

    function GetReducedExp(): PExp
      reads this
    {
      startingExp
    }

    method EndPSymbol(e: PExp)
      modifies this`startingExp
      ensures startingExp == CorrespondenceStep(substitutions, old(startingExp), e)
    {
      var value := Get(substitutions, e);
      if value.Some? {
        startingExp := SubstituteOne(startingExp, e, value.value);
      }
    }

    method Accept(start: PExp)
      modifies this`startingExp
      ensures startingExp == CorrespondenceFold(substitutions, old(startingExp), VisitedSymbols(start))
    {
      var syms := VisitedSymbols(start);
      var i := 0;
      while i < |syms|
        invariant 0 <= i <= |syms|
        invariant CorrespondenceFold(substitutions, startingExp, syms[i..])
               == CorrespondenceFold(substitutions, old(startingExp), syms)
      {
        assert syms[i..][0] == syms[i] && syms[i..][1..] == syms[i + 1..];
        EndPSymbol(syms[i]);
        i := i + 1;
      }
    }
  }

  /** `withCorrespondencePartsSubstituted`: build the visitor, let `start` accept it, read the result. */
  method WithCorrespondencePartsSubstituted(start: PExp, corr: PExp) returns (r: Result<PExp>)
    ensures r == CorrespondenceReduce(corr, start)
  {
    var v := CorrespondenceReducingVisitor.FromCorrespondence(corr, start);
    if v.Error? {
      return Error(v.error);
    }
    v.value.Accept(start);
    r := Success(v.value.GetReducedExp());
  }
}

module CorrespondenceFacts {
  import opened Wrappers
  import opened JavaLang
  import opened MathTypes
  import opened Terms
  import opened Equality
  import opened SubstMaps
  import opened Substitution
  import opened SubstitutionFacts
  import opened Queries
  import opened Correspondence

  /** Only symbols are visited, and a symbol is visited last, after everything below it. */
  lemma {:induction false} VisitedSymbolsAreSymbols(e: PExp)
    ensures forall x :: x in VisitedSymbols(e) ==> x.PSymbol?
    ensures e.PSymbol? ==> VisitedSymbols(e)[|VisitedSymbols(e)| - 1] == e
    decreases Depth(e), 1
  {
    DepthOfChildren(e);
    match e
    case PSymbol(_, _, _, _, args, _, _, _, _, _, _) =>
      VisitedAllAreSymbols(args, Depth(e));
    case PApply(fn, args, _, _, _, _) =>
      VisitedSymbolsAreSymbols(fn);
      VisitedAllAreSymbols(args, Depth(e));
    case PSegments(segs, _) =>
      VisitedAllAreSymbols(segs, Depth(e));
    case PQuantified(_, _, _) =>
    case PLambda(_, _, _, _) =>
  }

  lemma {:induction false} VisitedAllAreSymbols(xs: seq<PExp>, bound: nat)
    requires forall i :: 0 <= i < |xs| ==> Depth(xs[i]) < bound
    ensures forall x :: x in VisitedAll(xs, bound) ==> x.PSymbol?
    decreases bound, 0, |xs|
  {
    if |xs| > 0 {
      VisitedSymbolsAreSymbols(xs[0]);
      VisitedAllAreSymbols(xs[1..], bound);
    }
  }

  /** A term none of whose visited symbols is a defined `conc.` application is its own beta reduction. */
  lemma BetaReduceWithoutConcApplications(m: SubstMap, start: PExp)
    requires forall x :: x in VisitedSymbols(start) ==> !IsReducible(m, x)
    ensures BetaReduce(m, start) == Success(start)
  {
    BetaFoldWithoutReducible(m, start, VisitedSymbols(start));
  }

  /** The beta steps of two visits in a row. */
  lemma {:induction false} BetaFoldAppend(m: SubstMap, cur: PExp, xs: seq<PExp>, ys: seq<PExp>)
    ensures BetaFold(m, cur, xs + ys) ==
      match BetaFold(m, cur, xs)
      case Error(f) => Error(f)
      case Success(c) => BetaFold(m, c, ys)
    decreases |xs|
  {
    if |xs| == 0 {
      assert xs + ys == ys;
    } else {
      assert (xs + ys)[0] == xs[0] && (xs + ys)[1..] == xs[1..] + ys;
      var step := BetaStep(m, cur, xs[0]);
      if step.Success? {
        BetaFoldAppend(m, step.value, xs[1..], ys);
      }
    }
  }

  /**
   * A conceptual application defined by something other than a lambda makes
   * the reduction throw ClassCastException once the visit reaches it.
   */
  lemma NonLambdaDefinitionFails(m: SubstMap, start: PExp, k: nat)
    requires k < |VisitedSymbols(start)|
    requires BetaFold(m, start, VisitedSymbols(start)[..k]).Success?
    requires IsReducible(m, VisitedSymbols(start)[k])
    requires !Get(m, PlainForm(VisitedSymbols(start)[k])).value.PLambda?
    ensures BetaReduce(m, start) == Error(ClassCast)
  {
    var syms := VisitedSymbols(start);
    assert syms == syms[..k] + syms[k..];
    BetaFoldAppend(m, start, syms[..k], syms[k..]);
    assert syms[k..][0] == syms[k];
  }

  /** A correspondence none of whose visited symbols is a key leaves the beta-reduced term as it is. */
  lemma {:induction false} CorrespondenceFoldWithoutKeys(m: SubstMap, cur: PExp, syms: seq<PExp>)
    requires forall i :: 0 <= i < |syms| ==> Get(m, syms[i]).None?
    ensures CorrespondenceFold(m, cur, syms) == cur
    decreases |syms|
  {
    if |syms| > 0 {
      CorrespondenceFoldWithoutKeys(m, cur, syms[1..]);
    }
  }

  /** The map is the formal-to-actual zip of the conjuncts' left and right subexpressions. */
  lemma {:induction false} PutEntriesIsZip(m: SubstMap, cs: seq<PExp>)
    requires forall i :: 0 <= i < |cs| ==> EntryOf(cs[i]).Success?
    ensures PutEntries(m, cs) == Success(ZipMap(m, Lefts(cs), Rights(cs)))
    decreases |cs|
  {
    if |cs| > 0 {
      assert Lefts(cs)[1..] == Lefts(cs[1..]);
      assert Rights(cs)[1..] == Rights(cs[1..]);
      var e := EntryOf(cs[0]).value;
      PutEntriesIsZip(Put(m, e.0, e.1), cs[1..]);
    }
  }

  function Lefts(cs: seq<PExp>): (r: seq<PExp>)
    requires forall i :: 0 <= i < |cs| ==> EntryOf(cs[i]).Success?
    ensures |r| == |cs|
  {
    seq(|cs|, i requires 0 <= i < |cs| => EntryOf(cs[i]).value.0)
  }

  function Rights(cs: seq<PExp>): (r: seq<PExp>)
    requires forall i :: 0 <= i < |cs| ==> EntryOf(cs[i]).Success?
    ensures |r| == |cs|
  {
    seq(|cs|, i requires 0 <= i < |cs| => EntryOf(cs[i]).value.1)
  }

  /**
   * The entry's value is subexpression 1 of a conjunct whose subexpression 0
   * is the entry's key, or is `equals` to it with the same hash code (a later
   * put that kept the earlier key and took the new value).
   */
  predicate PairedWithConjunct(entry: (PExp, PExp), cs: seq<PExp>) {
    exists i :: 0 <= i < |cs| && EntryOf(cs[i]).Success? && entry.1 == EntryOf(cs[i]).value.1
      && (entry.0 == EntryOf(cs[i]).value.0 || KeyMatches(EntryOf(cs[i]).value.0, entry.0))
  }

  /** A pairing with a later conjunct is a pairing with the whole list. */
  lemma PairedWithRest(entry: (PExp, PExp), cs: seq<PExp>)
    requires |cs| > 0 && PairedWithConjunct(entry, cs[1..])
    ensures PairedWithConjunct(entry, cs)
  {
    var i :| 0 <= i < |cs[1..]| && EntryOf(cs[1..][i]).Success? && entry.1 == EntryOf(cs[1..][i]).value.1
      && (entry.0 == EntryOf(cs[1..][i]).value.0 || KeyMatches(EntryOf(cs[1..][i]).value.0, entry.0));
    assert cs[1..][i] == cs[i + 1];
  }

  /** Putting the first conjunct's entry: every entry is an old one or paired with that conjunct. */
  lemma PutFirstPaired(m: SubstMap, cs: seq<PExp>)
    requires |cs| > 0 && EntryOf(cs[0]).Success?
    ensures var m' := Put(m, EntryOf(cs[0]).value.0, EntryOf(cs[0]).value.1);
      forall k :: 0 <= k < |m'| ==> m'[k] in m || PairedWithConjunct(m'[k], cs)
  {
    var e := EntryOf(cs[0]).value;
    var m' := Put(m, e.0, e.1);
    forall k | 0 <= k < |m'| && m'[k] !in m
      ensures PairedWithConjunct(m'[k], cs)
    {
      match FindKey(m, e.0)
      case None =>
        assert m' == m + [e];
      case Some(p) =>
        assert m' == m[p := (m[p].0, e.1)];
        assert k == p;
    }
  }

  /** Each entry the constructor's loop leaves is either an entry it started with or paired with a conjunct. */
  lemma {:induction false} PutEntriesPaired(m: SubstMap, cs: seq<PExp>)
    requires PutEntries(m, cs).Success?
    ensures var r := PutEntries(m, cs).value;
      forall j :: 0 <= j < |r| ==> r[j] in m || PairedWithConjunct(r[j], cs)
    decreases |cs|
  {
    if |cs| > 0 {
      var e := EntryOf(cs[0]).value;
      var m' := Put(m, e.0, e.1);
      PutEntriesPaired(m', cs[1..]);
      PutFirstPaired(m, cs);
      var r := PutEntries(m, cs).value;
      assert r == PutEntries(m', cs[1..]).value;
      forall j | 0 <= j < |r| && r[j] !in m
        ensures PairedWithConjunct(r[j], cs)
      {
        if r[j] !in m' {
          PairedWithRest(r[j], cs);
        }
      }
    }
  }

  /**
   * Every key of a successfully built map is the left subexpression of some
   * conjunct, and its value is the right subexpression of a conjunct whose
   * left subexpression is that key or matches it.
   */
  lemma CorrespondenceMapFromConjuncts(corr: PExp)
    requires CorrespondenceMap(corr).Success?
    ensures var m := CorrespondenceMap(corr).value;
      forall j :: 0 <= j < |m| ==> FromSomeConjunct(m[j], Conjuncts(corr)) && PairedWithConjunct(m[j], Conjuncts(corr))
  {
    var cs := Conjuncts(corr);
    PutEntriesPaired([], cs);
    PutEntriesFails([], cs);
    assert forall i :: 0 <= i < |cs| ==> EntryOf(cs[i]).Success?;
    PutEntriesIsZip([], cs);
    ZipMapFacts([], Lefts(cs), Rights(cs));
    var m := CorrespondenceMap(corr).value;
    forall j | 0 <= j < |m|
      ensures FromSomeConjunct(m[j], cs)
    {
      assert m[j].0 in Lefts(cs) && m[j].1 in Rights(cs);
      var a :| 0 <= a < |cs| && m[j].0 == Lefts(cs)[a];
      var b :| 0 <= b < |cs| && m[j].1 == Rights(cs)[b];
      assert EntryOf(cs[a]).Success? && EntryOf(cs[b]).Success?;
      assert |SubExpressions(cs[a])| >= 2 && m[j].0 == SubExpressions(cs[a])[0];
      assert |SubExpressions(cs[b])| >= 2 && m[j].1 == SubExpressions(cs[b])[1];
    }
  }

  /** The key of an entry is subexpression 0 of some conjunct and its value subexpression 1 of some conjunct. */
  predicate FromSomeConjunct(entry: (PExp, PExp), cs: seq<PExp>) {
    && (exists i :: 0 <= i < |cs| && |SubExpressions(cs[i])| >= 2 && entry.0 == SubExpressions(cs[i])[0])
    && (exists i :: 0 <= i < |cs| && |SubExpressions(cs[i])| >= 2 && entry.1 == SubExpressions(cs[i])[1])
  }

  /** A conjunct written as a symbol `x = y` contributes x ↦ y. */
  lemma SymbolConjunctEntry(c: PExp)
    requires c.PSymbol? && |c.args| == 2 && c.args[0].PSymbol?
    ensures EntryOf(c) == Success((c.args[0], c.args[1]))
  {
  }

  /**
   * A conjunct written as an application `f(a, ...)` contributes f ↦ a: its
   * subexpression 0 is the function portion, not the left operand.
   */
  lemma ApplicationConjunctEntry(c: PExp)
    requires c.PApply? && c.fn.PSymbol? && |c.args| >= 1
    ensures EntryOf(c) == Success((c.fn, c.args[0]))
  {
  }
}
