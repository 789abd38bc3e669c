/**
 * The read-only questions prover terms answer: names, shape predicates,
 * conjunct splitting, the variables and applications they hold, quantifier
 * flipping and their text.
 */
module Queries {
  import opened Wrappers
  import opened JavaLang
  import opened MathTypes
  import opened Terms
  import opened Equality

  /** `getTopLevelOperationName` (a quantified node answers with its canonical name). */
  function TopName(e: PExp): string {
    match e
    case PSymbol(name, _, _, _, _, _, _, _, _, _, _) => name
    case PApply(fn, _, _, _, _, _) => TopName(fn)
    case PSegments(_, _) => ""
    case PQuantified(_, _, _) => "Quantified exp"
    case PLambda(_, _, _, _) => ""
  }

  /** `getSubExpressions`. */
  function SubExpressions(e: PExp): (r: seq<PExp>)
    ensures forall i :: 0 <= i < |r| ==> Depth(r[i]) < Depth(e)
  {
    DepthOfChildren(e);
    match e
    case PSymbol(_, _, _, _, args, _, _, _, _, _, _) => args
    case PApply(fn, args, _, _, _, _) => [fn] + args
    case PSegments(segs, _) => segs
    case PQuantified(assertion, _, _) => [assertion]
    case PLambda(_, _, _, _) => []
  }

  /** `getQuantification`: an application answers with its function portion's. */
  function QuantificationOf(e: PExp): Quantification {
    match e
    case PSymbol(_, _, _, _, _, _, _, quant, _, _, _) => quant
    case PApply(fn, _, _, _, _, _) => QuantificationOf(fn)
    case _ => QNone
  }

  predicate IsFunctionApplication(e: PExp) {
    (e.PSymbol? && |e.args| > 0) || e.PApply?
  }

  predicate IsVariable(e: PExp) {
    e.PSymbol? && |e.args| == 0
  }

  predicate IsLiteral(e: PExp) {
    e.PSymbol? && e.literal
  }

  predicate IsLiteralFalse(e: PExp) {
    e.PSymbol? && |e.args| == 0 && EqualsIgnoreCase(e.name, "false")
  }

  /** `isIncoming`: a symbol's flag, or an application's function portion's. */
  predicate IsIncoming(e: PExp) {
    match e
    case PSymbol(_, _, _, _, _, _, incoming, _, _, _, _) => incoming
    case PApply(fn, _, _, _, _, _) => IsIncoming(fn)
    case _ => false
  }

  predicate IsEquality(e: PExp) {
    match e
    case PSymbol(name, _, _, _, args, _, _, _, _, _, _) => |args| == 2 && name == "="
    case PApply(fn, args, _, _, _, _) => |args| == 2 && TopName(fn) == "="
    case _ => false
  }

  /** `isConjunct`: only applications of `and` (never `∧`) with two arguments. */
  predicate IsConjunct(e: PExp) {
    e.PApply? && |e.args| == 2 && TopName(e.fn) == "and"
  }

  predicate IsObviouslyTrue(e: PExp) {
    match e
    case PSymbol(name, _, _, _, args, _, _, _, _, _, _) =>
      (|args| == 0 && EqualsIgnoreCase(name, "true"))
      || (|args| == 2 && name == "=" && JEquals(args[0], args[1]))
    case PApply(fn, args, _, _, _, _) =>
      fn.PSymbol? && TopName(fn) == "=" && |args| == 2 && JEquals(args[0], args[1])
    case _ => false
  }

  /** `containsName`. */
  predicate ContainsName(e: PExp, n: string) {
    match e
    case PSymbol(name, _, _, _, args, _, _, _, _, _, _) =>
      name == n || exists i :: 0 <= i < |args| && ContainsName(args[i], n)
    case PApply(fn, args, _, _, _, _) =>
      ContainsName(fn, n) || exists i :: 0 <= i < |args| && ContainsName(args[i], n)
    case PSegments(segs, _) =>
      exists i :: 0 <= i < |segs| && ContainsName(segs[i], n)
    case PQuantified(assertion, _, _) => ContainsName(assertion, n)
    case PLambda(_, _, _, _) => false
  }

  /** A symbol's canonical name: `lprint...rprint` for an outfix symbol, else its name. */
  function CanonicalName(e: PExp): string
    requires e.PSymbol?
  {
    if e.style == SOutfix then e.lprint + "..." + e.rprint else e.name
  }

  /**
   * `getSymbolNames(excludeApplications, excludeLiterals)`. A symbol takes no
   * flags: it contributes its canonical name unless it is quantified, then
   * its arguments' names with both flags off. An application contributes its
   * function portion's names unless applications are excluded.
   */
  function SymbolNames(e: PExp, excludeApps: bool, excludeLits: bool): (r: set<string>)
    ensures e.PSymbol? && e.quant == QNone ==> CanonicalName(e) in r
    ensures e.PSymbol? && e.quant != QNone && |e.args| == 0 ==> r == {}
    ensures e.PSegments? || e.PLambda? ==> r == {}
  {
    match e
    case PSymbol(_, _, _, _, args, _, _, quant, _, _, _) =>
      (if quant == QNone then {CanonicalName(e)} else {})
      + (set i, s | 0 <= i < |args| && s in SymbolNames(args[i], false, false) :: s)
    case PApply(fn, args, _, _, _, _) =>
      (if excludeApps then {} else SymbolNames(fn, false, excludeLits))
      + (set i, s | 0 <= i < |args| && s in SymbolNames(args[i], excludeApps, excludeLits) :: s)
    case PSegments(_, _) => {}
    case PQuantified(assertion, _, _) => SymbolNames(assertion, excludeApps, excludeLits)
    case PLambda(_, _, _, _) => {}
  }

  /** `hasSymbolNamesInCommonWith`. */
  predicate HasSymbolNamesInCommon(a: PExp, b: PExp, excludeApps: bool, excludeLits: bool) {
    SymbolNames(a, excludeApps, excludeLits) * SymbolNames(b, excludeApps, excludeLits) != {}
  }

  /** Is `e` a binary conjunction that `splitIntoConjuncts` descends into? */
  predicate SplitsAsConjunction(e: PExp) {
    (e.PSymbol? && |e.args| == 2 && e.name == "and")
    || (e.PApply? && |e.args| == 2 && (TopName(e.fn) == "and" || TopName(e.fn) == "∧"))
  }

  /** The list `splitIntoConjuncts()` returns. */
  function Conjuncts(e: PExp): (r: seq<PExp>)
    ensures forall c :: c in r ==> !SplitsAsConjunction(c) && !c.PSegments?
    ensures !SplitsAsConjunction(e) ==> r == if e.PSegments? then [] else [e]
  {
    if SplitsAsConjunction(e) then Conjuncts(e.args[0]) + Conjuncts(e.args[1])
    else if e.PSegments? then []
    else [e]
  }

  /** `getFunctionApplications`. */
  function FunctionApplications(e: PExp): seq<PExp>
    decreases Depth(e)
  {
    DepthOfChildren(e);
    match e
    case PSymbol(_, _, _, _, args, _, _, _, _, _, _) =>
      (if |args| > 0 then [e] else []) + ConcatApps(args, Depth(e))
    case PApply(_, _, _, _, _, _) =>
      [e] + ConcatApps(SubExpressions(e), Depth(e))
    case PSegments(_, _) => []
    case PQuantified(assertion, _, _) => FunctionApplications(assertion)
    case PLambda(_, _, _, _) => []
  }

  function ConcatApps(xs: seq<PExp>, bound: nat): seq<PExp>
    requires forall i :: 0 <= i < |xs| ==> Depth(xs[i]) < bound
    decreases bound, |xs|
  {
    if |xs| == 0 then [] else FunctionApplications(xs[0]) + ConcatApps(xs[1..], bound)
  }

  /** `getQuantifiedVariables`. A quantified function symbol contributes its nullary form. */
  function QuantifiedVariables(e: PExp): set<PExp>
    decreases Depth(e)
  {
    DepthOfChildren(e);
    match e
    case PSymbol(name, _, _, _, args, _, _, quant, _, mathType, _) =>
      (if quant == QNone then {}
       else if |args| == 0 then {e}
       else {PSymbol(name, name, name, None, [], false, false, quant, SPrefix, mathType, None)})
      + (set i, x | 0 <= i < |args| && x in QuantifiedVariables(args[i]) :: x)
    case PApply(_, _, _, _, _, _) =>
      var subs := SubExpressions(e);
      set i, x | 0 <= i < |subs| && x in QuantifiedVariables(subs[i]) :: x
    case PSegments(_, _) => {}
    case PQuantified(assertion, _, _) => QuantifiedVariables(assertion)
    case PLambda(_, _, _, _) => {}
  }

  /** `getIncomingVariables`: the incoming nullary symbols. */
  function IncomingVariables(e: PExp): set<PExp>
    decreases Depth(e)
  {
    DepthOfChildren(e);
    match e
    case PSymbol(_, _, _, _, args, _, incoming, _, _, _, _) =>
      (if incoming && |args| == 0 then {e} else {})
      + (set i, x | 0 <= i < |args| && x in IncomingVariables(args[i]) :: x)
    case PApply(_, _, _, _, _, _) =>
      var subs := SubExpressions(e);
      set i, x | 0 <= i < |subs| && x in IncomingVariables(subs[i]) :: x
    case PSegments(_, _) => {}
    case PQuantified(assertion, _, _) => IncomingVariables(assertion)
    case PLambda(_, _, _, _) => {}
  }

  /** `withQuantifiersFlipped`. A symbol is rebuilt from its name alone, so its prints and qualifier are reset. */
  function WithQuantifiersFlipped(e: PExp): (r: PExp)
    ensures e.PSymbol? ==> r.PSymbol? && r.name == e.name && r.quant == Flipped(e.quant)
                           && r.style == e.style && |r.args| == |e.args|
                           && (forall i :: 0 <= i < |e.args| ==> r.args[i] == WithQuantifiersFlipped(e.args[i]))
    ensures e.PApply? ==> r.PApply? && r.appStyle == e.appStyle && |r.args| == |e.args|
                          && r.fn == WithQuantifiersFlipped(e.fn)
    ensures e.PQuantified? ==> r.PQuantified? && r.qtype == Flipped(e.qtype) && r.decls == e.decls
    ensures e.PSegments? || e.PLambda? ==> r == e
  {
    match e
    case PSymbol(name, _, _, _, args, literal, incoming, quant, style, mathType, mathTypeValue) =>
      PSymbol(name, name, name, None, seq(|args|, i requires 0 <= i < |args| => WithQuantifiersFlipped(args[i])),
              literal, incoming, Flipped(quant), style, mathType, mathTypeValue)
    case PApply(fn, args, appStyle, _, appType, vcInfo) =>
      PApply(WithQuantifiersFlipped(fn), seq(|args|, i requires 0 <= i < |args| => WithQuantifiersFlipped(args[i])),
             appStyle, false, appType, vcInfo)
    case PSegments(_, _) => e
    case PQuantified(assertion, qtype, decls) =>
      PQuantified(WithQuantifiersFlipped(assertion), Flipped(qtype), decls)
    case PLambda(_, _, _, _) => e
  }

  /** All the strings, or None when one of them could not be built. */
  function AllSome(os: seq<Option<string>>): (r: Option<seq<string>>)
    ensures r.Some? ==> |r.value| == |os| && forall i :: 0 <= i < |os| ==> os[i] == Some(r.value[i])
    ensures r.None? ==> exists i :: 0 <= i < |os| && os[i].None?
  {
    if |os| == 0 then Some([])
    else if os[0].None? then None
    else match AllSome(os[1..])
      case None => None
      case Some(rest) => Some([os[0].value] + rest)
  }

  /**
   * When `toString(parenthesizeApplications)` returns rather than throws: an
   * infix term needs two arguments, a mixfix or outfix application a symbol as
   * function portion, a mixfix application an argument, a quantified node a
   * declaration, and every argument, segment or assertion actually printed
   * must print in turn. Only applications pass the flag on to their
   * arguments; everything else prints its parts with it set.
   */
  predicate Printable(e: PExp, paren: bool)
    decreases e
  {
    match e
    case PSymbol(_, _, _, _, args, _, _, _, style, _, _) =>
      if |args| == 0 then true
      else if style == SInfix then |args| >= 2 && Printable(args[0], true) && Printable(args[1], true)
      else if style == SOutfix then Printable(args[0], true)
      else forall i :: 0 <= i < |args| ==> Printable(args[i], true)
    case PApply(fn, args, appStyle, _, _, _) =>
      (match appStyle
       case APrefix => Printable(fn, true) && forall i :: 0 <= i < |args| ==> Printable(args[i], paren)
       case AInfix => |args| >= 2 && Printable(args[0], paren) && Printable(args[1], paren)
       case AMixfix =>
         fn.PSymbol? && |args| > 0 && Printable(args[0], true)
         && forall i :: 1 <= i < |args| ==> Printable(args[i], paren)
       case AOutfix => fn.PSymbol? && forall i :: 0 <= i < |args| ==> Printable(args[i], paren))
    case PSegments(segs, _) => forall i :: 0 <= i < |segs| ==> Printable(segs[i], true)
    case PQuantified(assertion, _, decls) => |decls| > 0 && Printable(assertion, true)
    case PLambda(_, _, _, _) => true
  }

  /**
   * `toString(parenthesizeApplications)`; None where the Java code would
   * throw, which is exactly where `Printable` fails. A nullary symbol prints
   * as its name, after an `@` when it is an incoming value; a lambda prints
   * its display text.
   */
  function ToString(e: PExp, paren: bool): (r: Option<string>)
    ensures r.Some? <==> Printable(e, paren)
    ensures e.PSymbol? && |e.args| == 0 ==> r == Some((if e.incoming then "@" else "") + e.name)
    ensures e.PLambda? ==> r == Some(e.display)
    decreases e, 3
  {
    match e
    case PSymbol(_, _, _, _, _, _, _, _, _, _, _) => SymbolToString(e)
    case PApply(_, _, _, _, _, _) => ApplyToString(e, paren)
    case PSegments(segs, _) =>
      var printed := seq(|segs|, i requires 0 <= i < |segs| => ToString(segs[i], true));
      assert forall i :: 0 <= i < |segs| ==> printed[i] == ToString(segs[i], true);
      var strs :- AllSome(printed);
      Some(Join(strs, "."))
    case PQuantified(assertion, qtype, decls) =>
      if |decls| == 0 then None
      else
        var body :- ToString(assertion, true);
        var names := seq(|decls|, i requires 0 <= i < |decls| => decls[i].declName);
        Some((if qtype == Universal then "Forall" else "Exists") + " " + Join(names, ", ") + ":"
             + decls[0].declType + " " + body)
    case PLambda(_, _, _, display) => Some(display)
  }

  /** `PSymbol.toString()`: infix prints arguments 0 and 1, outfix argument 0, prefix all of them. */
  function SymbolToString(e: PExp): (r: Option<string>)
    requires e.PSymbol?
    ensures r.Some? <==> Printable(e, true)
    ensures |e.args| == 0 ==> r == Some((if e.incoming then "@" else "") + e.name)
    decreases e, 1
  {
    var at := if e.incoming then "@" else "";
    var args := e.args;
    if |args| == 0 then Some(at + e.name)
    else if e.style == SInfix then
      if |args| < 2 then None
      else
        var left :- ToString(args[0], true);
        var right :- ToString(args[1], true);
        Some("(" + at + left + " " + e.name + " " + right + ")")
    else if e.style == SOutfix then
      var inner :- ToString(args[0], true);
      Some(at + e.lprint + inner + e.rprint)
    else
      var strs :- PrintArgs(e, 0, true);
      Some("(" + at + e.name + "(" + Join(strs, ", ") + "))")
  }

  /** `PApply.toString(parenthesizeApplications)`, by display style. */
  function ApplyToString(e: PExp, paren: bool): (r: Option<string>)
    requires e.PApply?
    ensures r.Some? <==> Printable(e, paren)
    decreases e, 2
  {
    match e.appStyle
    case APrefix => PrefixApplyToString(e, paren)
    case AInfix => InfixApplyToString(e, paren)
    case AMixfix => MixfixApplyToString(e, paren)
    case AOutfix => OutfixApplyToString(e, paren)
  }

  /** A prefix application: the function portion, then the arguments in parentheses. */
  function PrefixApplyToString(e: PExp, paren: bool): (r: Option<string>)
    requires e.PApply?
    ensures r.Some? <==> Printable(e.fn, true) && forall i :: 0 <= i < |e.args| ==> Printable(e.args[i], paren)
    decreases e, 1
  {
    var f :- ToString(e.fn, true);
    var strs :- PrintArgs(e, 0, paren);
    Some(f + "(" + Join(strs, ", ") + ")")
  }

  /** An infix application: the two operands around the function's name, parenthesised on request. */
  function InfixApplyToString(e: PExp, paren: bool): (r: Option<string>)
    requires e.PApply?
    ensures r.Some? <==> |e.args| >= 2 && Printable(e.args[0], paren) && Printable(e.args[1], paren)
    decreases e, 1
  {
    var args := e.args;
    if |args| < 2 then None
    else
      var left :- ToString(args[0], paren);
      var right :- ToString(args[1], paren);
      var r := left + " " + TopName(e.fn) + " " + right;
      Some(if paren then "(" + r + ")" else r)
  }

  /** A mixfix application: the first argument, then the others between the function's prints. */
  function MixfixApplyToString(e: PExp, paren: bool): (r: Option<string>)
    requires e.PApply?
    ensures r.Some? <==>
              e.fn.PSymbol? && |e.args| > 0 && Printable(e.args[0], true)
              && forall i :: 1 <= i < |e.args| ==> Printable(e.args[i], paren)
    decreases e, 1
  {
    var fn := e.fn;
    var args := e.args;
    if !fn.PSymbol? || |args| == 0 then None
    else
      var first :- ToString(args[0], true);
      var rest :- PrintArgs(e, 1, paren);
      Some(first + fn.lprint + Join(rest, ", ") + fn.rprint)
  }

  /** An outfix application: the arguments between the function's prints. */
  function OutfixApplyToString(e: PExp, paren: bool): (r: Option<string>)
    requires e.PApply?
    ensures r.Some? <==> e.fn.PSymbol? && forall i :: 0 <= i < |e.args| ==> Printable(e.args[i], paren)
    decreases e, 1
  {
    var fn := e.fn;
    if !fn.PSymbol? then None
    else
      var strs :- PrintArgs(e, 0, paren);
      Some(fn.lprint + Join(strs, ", ") + fn.rprint)
  }

  /** The printed arguments from position `k` on, or None when one of them cannot be printed. */
  function PrintArgs(e: PExp, k: nat, paren: bool): (r: Option<seq<string>>)
    requires (e.PSymbol? || e.PApply?) && k <= |e.args|
    ensures r.Some? <==> forall i :: k <= i < |e.args| ==> Printable(e.args[i], paren)
    ensures r.Some? ==> |r.value| == |e.args| - k
    ensures r.Some? ==> forall i :: k <= i < |e.args| ==> ToString(e.args[i], paren) == Some(r.value[i - k])
    decreases e, 0, |e.args| - k
  {
    if k == |e.args| then Some([])
    else match (ToString(e.args[k], paren), PrintArgs(e, k + 1, paren))
      case (Some(first), Some(rest)) => Some([first] + rest)
      case _ => None
  }
}

/** What the queries promise. */
module QueriesFacts {
  import opened Wrappers
  import opened JavaLang
  import opened MathTypes
  import opened Terms
  import opened Equality
  import opened EqualityFacts
  import opened Queries

  /** A binary `=` between two copies of a quantifier-free term is obviously true. */
  lemma ObviouslyTrueOnSameSides(eq: PExp, x: PExp)
    requires eq.PSymbol? && eq.name == "=" && eq.args == [x, x]
    requires QuantifierFree(x)
    ensures IsObviouslyTrue(eq)
  {
    EqualsReflexive(x);
  }

  /** The two sides of an obviously true equation have the same hash. */
  lemma ObviouslyTrueSidesHashAlike(e: PExp)
    requires IsObviouslyTrue(e) && IsEquality(e)
    ensures ValueHash(e.args[0]) == ValueHash(e.args[1])
  {
    EqualsImpliesSameHash(e.args[0], e.args[1]);
  }

  /** A nullary symbol is obviously true iff its name is `true` up to case. */
  lemma ObviouslyTrueNullary(e: PExp)
    requires e.PSymbol? && |e.args| == 0
    ensures IsObviouslyTrue(e) <==> EqualsIgnoreCase(e.name, "true")
  {
  }

  /** A quantified symbol's own name is left out; its arguments' names are kept. */
  lemma SymbolNamesOfQuantified(e: PExp, excludeApps: bool, excludeLits: bool)
    requires e.PSymbol? && e.quant != QNone
    ensures forall s :: (s in SymbolNames(e, excludeApps, excludeLits)
                         <==> exists i :: 0 <= i < |e.args| && s in SymbolNames(e.args[i], false, false))
  {
  }

  lemma HasSymbolNamesInCommonSymmetric(a: PExp, b: PExp, excludeApps: bool, excludeLits: bool)
    ensures HasSymbolNamesInCommon(a, b, excludeApps, excludeLits)
        <==> HasSymbolNamesInCommon(b, a, excludeApps, excludeLits)
  {
    assert SymbolNames(a, excludeApps, excludeLits) * SymbolNames(b, excludeApps, excludeLits)
        == SymbolNames(b, excludeApps, excludeLits) * SymbolNames(a, excludeApps, excludeLits);
  }

  /** `excludeLiterals` is passed down but never read: both values give the same names. */
  lemma {:induction false} SymbolNamesIgnoreLiterals(e: PExp, excludeApps: bool, l1: bool, l2: bool)
    ensures SymbolNames(e, excludeApps, l1) == SymbolNames(e, excludeApps, l2)
  {
    match e
    case PSymbol(_, _, _, _, _, _, _, _, _, _, _) =>
    case PApply(fn, args, _, _, _, _) =>
      SymbolNamesIgnoreLiterals(fn, false, l1, l2);
      forall i | 0 <= i < |args| {
        SymbolNamesIgnoreLiterals(args[i], excludeApps, l1, l2);
      }
    case PSegments(_, _) =>
    case PQuantified(assertion, _, _) =>
      SymbolNamesIgnoreLiterals(assertion, excludeApps, l1, l2);
    case PLambda(_, _, _, _) =>
  }

  /** Excluding applications can only drop names. */
  lemma {:induction false} SymbolNamesExcludeAppsNarrows(e: PExp, excludeLits: bool)
    ensures SymbolNames(e, true, excludeLits) <= SymbolNames(e, false, excludeLits)
  {
    match e
    case PSymbol(_, _, _, _, _, _, _, _, _, _, _) =>
    case PApply(fn, args, _, _, _, _) =>
      forall i | 0 <= i < |args| {
        SymbolNamesExcludeAppsNarrows(args[i], excludeLits);
      }
    case PSegments(_, _) =>
    case PQuantified(assertion, _, _) =>
      SymbolNamesExcludeAppsNarrows(assertion, excludeLits);
    case PLambda(_, _, _, _) =>
  }

  /** A shared name is a witness for `hasSymbolNamesInCommonWith`, and every witness is shared. */
  lemma HasSymbolNamesInCommonWitness(a: PExp, b: PExp, excludeApps: bool, excludeLits: bool)
    ensures HasSymbolNamesInCommon(a, b, excludeApps, excludeLits)
        <==> exists n :: n in SymbolNames(a, excludeApps, excludeLits) && n in SymbolNames(b, excludeApps, excludeLits)
  {
    if HasSymbolNamesInCommon(a, b, excludeApps, excludeLits) {
      var n :| n in SymbolNames(a, excludeApps, excludeLits) * SymbolNames(b, excludeApps, excludeLits);
      assert n in SymbolNames(a, excludeApps, excludeLits) && n in SymbolNames(b, excludeApps, excludeLits);
    } else {
      forall n | n in SymbolNames(a, excludeApps, excludeLits)
        ensures n !in SymbolNames(b, excludeApps, excludeLits)
      {
        assert n !in SymbolNames(a, excludeApps, excludeLits) * SymbolNames(b, excludeApps, excludeLits);
      }
    }
  }

  /** Splitting is idempotent: each conjunct splits into exactly itself. */
  lemma ConjunctsIdempotent(e: PExp)
    ensures forall c :: c in Conjuncts(e) ==> Conjuncts(c) == [c]
  {
  }

  /** `e` is the left-nested binary `and` of `leaves`: `and(and(l0, l1), l2)` and so on. */
  predicate IsAndChain(e: PExp, leaves: seq<PExp>)
    decreases |leaves|
  {
    if |leaves| <= 1 then leaves == [e]
    else e.PSymbol? && e.name == "and" && |e.args| == 2
         && e.args[1] == leaves[|leaves| - 1] && IsAndChain(e.args[0], leaves[..|leaves| - 1])
  }

  /** Splitting preserves order: a left-nested `and` chain of atoms yields its leaves left to right. */
  lemma {:induction false} ConjunctsOfChain(e: PExp, leaves: seq<PExp>)
    requires IsAndChain(e, leaves)
    requires forall i :: 0 <= i < |leaves| ==> !SplitsAsConjunction(leaves[i]) && !leaves[i].PSegments?
    ensures Conjuncts(e) == leaves
    decreases |leaves|
  {
    if |leaves| > 1 {
      var front := leaves[..|leaves| - 1];
      ConjunctsOfChain(e.args[0], front);
      assert leaves == front + [leaves[|leaves| - 1]];
    }
  }

  /** `∧` is split like `and`, yet `isConjunct` does not recognise it. */
  lemma WedgeSplitsButIsNoConjunct(fn: PExp, x: PExp, y: PExp, e: PExp)
    requires fn.PSymbol? && fn.name == "∧"
    requires e.PApply? && e.fn == fn && e.args == [x, y]
    ensures SplitsAsConjunction(e) && !IsConjunct(e)
  {
  }

  /** Every listed application is a function application, and an application lists itself first. */
  lemma {:induction false} FunctionApplicationsAreApplications(e: PExp)
    ensures forall x :: x in FunctionApplications(e) ==> IsFunctionApplication(x)
    ensures IsFunctionApplication(e) ==> FunctionApplications(e)[0] == e
    decreases Depth(e), 1
  {
    DepthOfChildren(e);
    match e
    case PSymbol(_, _, _, _, args, _, _, _, _, _, _) =>
      ConcatAppsAreApplications(args, Depth(e));
    case PApply(_, _, _, _, _, _) =>
      ConcatAppsAreApplications(SubExpressions(e), Depth(e));
    case PSegments(_, _) =>
    case PQuantified(assertion, _, _) =>
      FunctionApplicationsAreApplications(assertion);
    case PLambda(_, _, _, _) =>
  }

  lemma {:induction false} ConcatAppsAreApplications(xs: seq<PExp>, bound: nat)
    requires forall i :: 0 <= i < |xs| ==> Depth(xs[i]) < bound
    ensures forall x :: x in ConcatApps(xs, bound) ==> IsFunctionApplication(x)
    decreases bound, 0, |xs|
  {
    if |xs| > 0 {
      FunctionApplicationsAreApplications(xs[0]);
      ConcatAppsAreApplications(xs[1..], bound);
    }
  }

  /** Every quantified variable is a nullary, quantified symbol. */
  lemma {:induction false} QuantifiedVariablesAreQuantified(e: PExp)
    ensures forall x :: x in QuantifiedVariables(e) ==> x.PSymbol? && |x.args| == 0 && x.quant != QNone
    decreases Depth(e)
  {
    DepthOfChildren(e);
    match e
    case PSymbol(_, _, _, _, args, _, _, _, _, _, _) =>
      forall i | 0 <= i < |args| {
        QuantifiedVariablesAreQuantified(args[i]);
      }
    case PApply(_, _, _, _, _, _) =>
      var subs := SubExpressions(e);
      forall i | 0 <= i < |subs| {
        QuantifiedVariablesAreQuantified(subs[i]);
      }
    case PSegments(_, _) =>
    case PQuantified(assertion, _, _) =>
      QuantifiedVariablesAreQuantified(assertion);
    case PLambda(_, _, _, _) =>
  }

  /** Every incoming variable is a nullary symbol carrying the incoming mark. */
  lemma {:induction false} IncomingVariablesAreIncoming(e: PExp)
    ensures forall x :: x in IncomingVariables(e) ==> x.PSymbol? && |x.args| == 0 && x.incoming
    decreases Depth(e)
  {
    DepthOfChildren(e);
    match e
    case PSymbol(_, _, _, _, args, _, _, _, _, _, _) =>
      forall i | 0 <= i < |args| {
        IncomingVariablesAreIncoming(args[i]);
      }
    case PApply(_, _, _, _, _, _) =>
      var subs := SubExpressions(e);
      forall i | 0 <= i < |subs| {
        IncomingVariablesAreIncoming(subs[i]);
      }
    case PSegments(_, _) =>
    case PQuantified(assertion, _, _) =>
      IncomingVariablesAreIncoming(assertion);
    case PLambda(_, _, _, _) =>
  }

  /** A name found in a subexpression is found in the term (lambdas are opaque). */
  lemma ContainsNameOfSubExpression(e: PExp, n: string, i: nat)
    requires !e.PLambda?
    requires i < |SubExpressions(e)| && ContainsName(SubExpressions(e)[i], n)
    ensures ContainsName(e, n)
  {
    if e.PApply? && i > 0 {
      assert SubExpressions(e)[i] == e.args[i - 1];
    }
  }

  /** Conversely a name found in a term is the symbol's own or comes from a subexpression. */
  lemma ContainsNameFromSubExpression(e: PExp, n: string)
    requires ContainsName(e, n)
    ensures (e.PSymbol? && e.name == n)
         || exists i :: 0 <= i < |SubExpressions(e)| && ContainsName(SubExpressions(e)[i], n)
  {
    var subs := SubExpressions(e);
    if e.PApply? && !ContainsName(e.fn, n) {
      var i :| 0 <= i < |e.args| && ContainsName(e.args[i], n);
      assert subs[i + 1] == e.args[i];
    } else if e.PApply? {
      assert subs[0] == e.fn;
    } else if e.PQuantified? {
      assert subs[0] == e.assertion;
    }
  }

  /** Terms `withQuantifiersFlipped` leaves unchanged apart from the quantifiers. */
  predicate FlipStable(e: PExp) {
    match e
    case PSymbol(name, lprint, rprint, qualifier, args, _, _, _, _, _, _) =>
      lprint == name && rprint == name && qualifier.None?
      && forall i :: 0 <= i < |args| ==> FlipStable(args[i])
    case PApply(fn, args, _, bracket, _, _) =>
      !bracket && FlipStable(fn) && forall i :: 0 <= i < |args| ==> FlipStable(args[i])
    case PSegments(_, _) => true
    case PQuantified(assertion, _, _) => FlipStable(assertion)
    case PLambda(_, _, _, _) => true
  }

  /** Flipping quantifiers twice gives the term back, for terms whose prints match their names. */
  lemma {:induction false} FlipTwice(e: PExp)
    requires FlipStable(e)
    ensures WithQuantifiersFlipped(WithQuantifiersFlipped(e)) == e
  {
    match e
    case PSymbol(_, _, _, _, args, _, _, _, _, _, _) =>
      forall i | 0 <= i < |args| {
        FlipTwice(args[i]);
      }
      assert WithQuantifiersFlipped(WithQuantifiersFlipped(e)).args == args;
    case PApply(fn, args, _, _, _, _) =>
      FlipTwice(fn);
      forall i | 0 <= i < |args| {
        FlipTwice(args[i]);
      }
      assert WithQuantifiersFlipped(WithQuantifiersFlipped(e)).args == args;
    case PSegments(_, _) =>
    case PQuantified(assertion, _, _) =>
      FlipTwice(assertion);
    case PLambda(_, _, _, _) =>
  }

  /** The names of a list of symbols. */
  function NamesOf(xs: seq<PExp>): (r: seq<string>)
    requires forall i :: 0 <= i < |xs| ==> xs[i].PSymbol?
    ensures |r| == |xs| && forall i :: 0 <= i < |xs| ==> r[i] == xs[i].name
  {
    if |xs| == 0 then [] else [xs[0].name] + NamesOf(xs[1..])
  }

  /** A segments term of plain names prints as the names joined by dots. */
  lemma SegmentsToString(e: PExp)
    requires e.PSegments?
    requires forall i :: 0 <= i < |e.segs| ==> e.segs[i].PSymbol? && |e.segs[i].args| == 0 && !e.segs[i].incoming
    ensures ToString(e, true) == Some(Join(NamesOf(e.segs), "."))
  {
    var os := seq(|e.segs|, i requires 0 <= i < |e.segs| => ToString(e.segs[i], true));
    var names := NamesOf(e.segs);
    forall i | 0 <= i < |os|
      ensures os[i] == Some(names[i])
    {
      assert "" + e.segs[i].name == e.segs[i].name;
    }
    assert AllSome(os).Some?;
    assert AllSome(os).value == names;
  }

  /** Splitting a segments term's text at its dots gives back the segment names. */
  lemma SegmentsToStringSplits(e: PExp)
    requires e.PSegments? && |e.segs| >= 1
    requires forall i :: 0 <= i < |e.segs| ==> e.segs[i].PSymbol? && |e.segs[i].args| == 0 && !e.segs[i].incoming
    requires forall i :: 0 <= i < |e.segs| ==> '.' !in e.segs[i].name
    requires |e.segs| == 1 || e.segs[|e.segs| - 1].name != ""
    ensures ToString(e, true).Some?
    ensures SplitOnDot(ToString(e, true).value) == NamesOf(e.segs)
  {
    SegmentsToString(e);
    SplitOnDotOfJoin(NamesOf(e.segs));
  }
}
