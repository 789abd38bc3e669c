/**
 * `ModelBuilderProto`: the tree listener that builds one assertive block per
 * type representation, type initialization and procedure. A block is made
 * and pushed when its declaration is entered and popped, completed and
 * emitted to the output file when the declaration is left. A procedure's
 * requires and ensures are first rewritten for its parameters: the
 * initialization and constraint or convention of each parameter of a named
 * type, and for the ensures the conjunct each parameter mode asks for.
 *
 * The type graph is not part of this model: its true expression and its two
 * ways of forming conjunctions are given.
 */
module ModelBuilders {
  import opened Wrappers
  import opened MathTypes
  import opened Terms
  import opened Queries
  import opened Substitution
  import opened ProgTypes
  import opened ProgParameters
  import opened AssertiveBlocks
  import opened Correspondence

  /** `TypeGraph`: `getTrueExp`, `formConjunct` and `formConjuncts`. */
  datatype TypeGraph = TypeGraph(trueExp: PExp, formConjunct: (PExp, PExp) -> PExp, formConjuncts: seq<PExp> -> PExp)

  /** The clause a module-level assertion was defined by. */
  datatype ClauseKind = RequiresClause | ConstraintClause | OtherClause

  /** `GlobalMathAssertionSymbol`: its defining clause and the expression it encloses. */
  datatype GlobalAssertion = GlobalAssertion(definingTree: ClauseKind, enclosedExp: PExp)

  /** A module scope as the builder reads it: the related modules, and the module's assertions in order. */
  datatype ModuleScopeInfo = ModuleScopeInfo(relatedModules: seq<string>, assertions: seq<GlobalAssertion>)

  /** `symtab.moduleScopes`. */
  type ModuleScopes = map<string, ModuleScopeInfo>

  /** The symbols of a scope, as far as `getFreeVars` tells them apart. */
  datatype ScopeSymbol = ParameterSymbol(paramName: string) | VariableSymbol(varName: string) | OtherSymbol(otherName: string)

  predicate IsFreeVarKind(s: ScopeSymbol) {
    s.ParameterSymbol? || s.VariableSymbol?
  }

  function SymbolName(s: ScopeSymbol): string {
    match s
    case ParameterSymbol(n) => n
    case VariableSymbol(n) => n
    case OtherSymbol(n) => n
  }

  /** `getFreeVars`: the scope's parameters and variables, in order; every other symbol is dropped. */
  function FreeVars(symbols: seq<ScopeSymbol>): (r: seq<FreeVariable>)
    ensures |r| <= |symbols|
    ensures forall s :: s in symbols && IsFreeVarKind(s) ==> FreeVariable(SymbolName(s)) in r
    ensures forall v :: v in r ==> exists s :: s in symbols && IsFreeVarKind(s) && v == FreeVariable(SymbolName(s))
  {
    if |symbols| == 0 then []
    else
      var front := symbols[..|symbols| - 1];
      var last := symbols[|symbols| - 1];
      assert symbols == front + [last];
      FreeVars(front) + if IsFreeVarKind(last) then [FreeVariable(SymbolName(last))] else []
  }

  /** A module's assertions defined by clauses of the given kind, the enclosed expressions in order. */
  function AssertionsOfKind(assertions: seq<GlobalAssertion>, k: ClauseKind): (r: seq<PExp>)
    ensures |r| <= |assertions|
    ensures forall e :: e in r <==> GlobalAssertion(k, e) in assertions
  {
    if |assertions| == 0 then []
    else
      var front := assertions[..|assertions| - 1];
      var last := assertions[|assertions| - 1];
      assert assertions == front + [last];
      AssertionsOfKind(front, k) + if last.definingTree == k then [last.enclosedExp] else []
  }

  /**
   * `getModuleLevelAssertionsOfType`: the assertions of that kind of each
   * related module in turn; a related module the table does not hold is
   * a null dereference.
   */
  function ModuleLevelAssertions(scopes: ModuleScopes, related: seq<string>, k: ClauseKind): (r: Result<seq<PExp>>)
    ensures r.Success? <==> forall m :: m in related ==> m in scopes
    ensures r.Error? ==> r.error == NullPointer
  {
    if |related| == 0 then Success([])
    else
      var front := related[..|related| - 1];
      var last := related[|related| - 1];
      assert related == front + [last];
      var prev := ModuleLevelAssertions(scopes, front, k);
      if prev.Error? then prev
      else if last !in scopes then Error(NullPointer)
      else Success(prev.value + AssertionsOfKind(scopes[last].assertions, k))
  }

  /** A symbol built from just a name and a math type, optionally incoming. */
  function NamedSymbol(name: string, t: MathType, incoming: bool): (r: PExp)
    ensures r.PSymbol? && r.args == [] && r.name == name && r.incoming == incoming && !r.literal
  {
    PSymbol(name, name, name, None, [], false, incoming, QNone, SPrefix, t, None)
  }

  /** The exemplar of a named type, as a symbol of the type's math type. */
  function ExemplarSymbol(t: ProgType): PExp
    requires IsNamed(t)
  {
    NamedSymbol(ExemplarName(t), ToMath(t), false)
  }

  /** `p` as the ensures rewriting builds it. */
  function ParamExp(p: ProgParameterSymbol): PExp {
    NamedSymbol(p.name, ToMath(p.declaredType), false)
  }

  /** `@p`: the same symbol, incoming. */
  function IncomingParamExp(p: ProgParameterSymbol): PExp {
    NamedSymbol(p.name, ToMath(p.declaredType), true)
  }

  /** `p = @p`, an infix boolean symbol. */
  function EqualsExp(p: ProgParameterSymbol): PExp {
    PSymbol("=", "=", "=", None, [ParamExp(p), IncomingParamExp(p)], false, false, QNone, SInfix, BOOLEAN, None)
  }

  /** The parameter-contingent conjuncts so far and the requires being rewritten. */
  datatype RequiresAcc = RequiresAcc(conjuncts: seq<PExp>, rewritten: PExp)

  /**
   * One parameter of `modifyRequiresByParams`: a generic contributes
   * nothing; a named type contributes its initialization ensures about the
   * parameter, then a family's constraint or a representation's convention,
   * and a representation also rewrites the requires through its
   * correspondence.
   */
  function RequiresStep(acc: RequiresAcc, p: ProgParameterSymbol): (r: Result<RequiresAcc>)
    ensures r.Success? ==> |r.value.conjuncts| == |acc.conjuncts| + if IsNamed(p.declaredType) then 2 else 0
    ensures r.Success? ==> r.value.conjuncts[..|acc.conjuncts|] == acc.conjuncts
    ensures !p.declaredType.PTRepresentation? ==> r.Success? && r.value.rewritten == acc.rewritten
  {
    var t := p.declaredType;
    if !IsNamed(t) then Success(acc)
    else
      var param := AsPSymbol(p);
      var exemplar := ExemplarSymbol(t);
      var init := SubstituteOne(InitializationEnsures(t), exemplar, param);
      if t.PTFamily? then
        Success(RequiresAcc(acc.conjuncts + [init, SubstituteOne(t.familyConstraint, exemplar, param)], acc.rewritten))
      else
        var repr := t.reprSymbol;
        var convention := SubstituteOne(repr.convention, exemplar, param);
        var reduced := CorrespondenceReduce(repr.correspondence, SubstituteOne(acc.rewritten, exemplar, repr.conceptualExemplar));
        if reduced.Error? then Error(reduced.error)
        else Success(RequiresAcc(acc.conjuncts + [init, convention], reduced.value))
  }

  /** The parameters in order, from no conjuncts and the operation's requires. */
  function RequiresFold(params: seq<ProgParameterSymbol>, req: PExp): Result<RequiresAcc> {
    if |params| == 0 then Success(RequiresAcc([], req))
    else
      var prev := RequiresFold(params[..|params| - 1], req);
      if prev.Error? then prev else RequiresStep(prev.value, params[|params| - 1])
  }

  /** `modifyRequiresByParams`: the conjunction of the contingent conjuncts, the rewritten requires last. */
  function ModifiedRequires(g: TypeGraph, params: seq<ProgParameterSymbol>, req: PExp): Result<PExp> {
    var acc := RequiresFold(params, req);
    if acc.Error? then Error(acc.error) else Success(g.formConjuncts(acc.value.conjuncts + [acc.value.rewritten]))
  }

  /** The representations' conventions so far and the ensures being rewritten. */
  datatype EnsuresAcc = EnsuresAcc(conjuncts: seq<PExp>, rewritten: PExp)

  /** `e` conjoined with `x`, or `x` alone when `e` is a literal. */
  function Conjoin(g: TypeGraph, e: PExp, x: PExp): PExp {
    if !IsLiteral(e) then g.formConjunct(e, x) else x
  }

  /**
   * The representation part of one parameter of `modifyEnsuresByParams`:
   * the convention about the parameter is a new conjunct and the ensures is
   * rewritten through the correspondence.
   */
  function ReprRewrite(acc: EnsuresAcc, p: ProgParameterSymbol): (r: Result<EnsuresAcc>)
    requires p.declaredType.PTRepresentation?
    ensures r.Success? ==> r.value.conjuncts == acc.conjuncts + [SubstituteOne(p.declaredType.reprSymbol.convention, ExemplarSymbol(p.declaredType), ParamExp(p))]
  {
    var t := p.declaredType;
    var repr := t.reprSymbol;
    var exemplar := ExemplarSymbol(t);
    var reduced := CorrespondenceReduce(repr.correspondence, SubstituteOne(acc.rewritten, exemplar, repr.conceptualExemplar));
    if reduced.Error? then Error(reduced.error)
    else Success(EnsuresAcc(acc.conjuncts + [SubstituteOne(repr.convention, exemplar, ParamExp(p))], reduced.value))
  }

  /**
   * The mode part: a preserved or restored parameter conjoins `p = @p`, a
   * cleared one its type's initialization ensures about `p`; the other
   * modes change nothing.
   */
  function ModeRewrite(g: TypeGraph, acc: EnsuresAcc, p: ProgParameterSymbol): (r: EnsuresAcc)
    requires IsNamed(p.declaredType)
    ensures r.conjuncts == acc.conjuncts
    ensures p.mode !in {Preserves, Restores, Clears} ==> r == acc
  {
    if p.mode == Preserves || p.mode == Restores then
      acc.(rewritten := Conjoin(g, acc.rewritten, EqualsExp(p)))
    else if p.mode == Clears then
      acc.(rewritten := Conjoin(g, acc.rewritten, SubstituteOne(InitializationEnsures(p.declaredType), ExemplarSymbol(p.declaredType), ParamExp(p))))
    else acc
  }

  /** One parameter of `modifyEnsuresByParams`; generics change nothing. */
  function EnsuresStep(g: TypeGraph, acc: EnsuresAcc, p: ProgParameterSymbol): (r: Result<EnsuresAcc>)
    ensures r.Success? ==> |r.value.conjuncts| == |acc.conjuncts| + if p.declaredType.PTRepresentation? then 1 else 0
    ensures r.Success? ==> r.value.conjuncts[..|acc.conjuncts|] == acc.conjuncts
    ensures !p.declaredType.PTRepresentation? ==> r.Success?
  {
    if !IsNamed(p.declaredType) then Success(acc)
    else if p.declaredType.PTRepresentation? then
      var after := ReprRewrite(acc, p);
      if after.Error? then after else Success(ModeRewrite(g, after.value, p))
    else Success(ModeRewrite(g, acc, p))
  }

  function EnsuresFold(g: TypeGraph, params: seq<ProgParameterSymbol>, ens: PExp): Result<EnsuresAcc> {
    if |params| == 0 then Success(EnsuresAcc([], ens))
    else
      var prev := EnsuresFold(g, params[..|params| - 1], ens);
      if prev.Error? then prev else EnsuresStep(g, prev.value, params[|params| - 1])
  }

  /** `modifyEnsuresByParams`: the conventions, then the rewritten ensures, in one conjunction. */
  function ModifiedEnsures(g: TypeGraph, params: seq<ProgParameterSymbol>, ens: PExp): Result<PExp> {
    var acc := EnsuresFold(g, params, ens);
    if acc.Error? then Error(acc.error) else Success(g.formConjuncts(acc.value.conjuncts + [acc.value.rewritten]))
  }

  /** Once a parameter's rewriting fails, the whole rewriting fails with that error. */
  lemma {:induction false} RequiresFoldError(params: seq<ProgParameterSymbol>, req: PExp, j: nat)
    requires j <= |params| && RequiresFold(params[..j], req).Error?
    ensures RequiresFold(params, req) == RequiresFold(params[..j], req)
    decreases |params| - j
  {
    if j < |params| {
      assert params[..j + 1][..j] == params[..j];
      assert RequiresFold(params[..j + 1], req) == RequiresFold(params[..j], req);
      RequiresFoldError(params, req, j + 1);
    } else {
      assert params[..j] == params;
    }
  }
  /** The rewriting of one more parameter is one more step. */
  lemma RequiresFoldNext(params: seq<ProgParameterSymbol>, i: nat, req: PExp, acc: RequiresAcc)
    requires i < |params| && RequiresFold(params[..i], req) == Success(acc)
    ensures RequiresFold(params[..i + 1], req) == RequiresStep(acc, params[i])
  {
    assert params[..i + 1][..i] == params[..i];
  }

  /** The same for the ensures. */
  lemma EnsuresFoldNext(g: TypeGraph, params: seq<ProgParameterSymbol>, i: nat, ens: PExp, acc: EnsuresAcc)
    requires i < |params| && EnsuresFold(g, params[..i], ens) == Success(acc)
    ensures EnsuresFold(g, params[..i + 1], ens) == EnsuresStep(g, acc, params[i])
  {
    assert params[..i + 1][..i] == params[..i];
  }

  lemma {:induction false} EnsuresFoldError(g: TypeGraph, params: seq<ProgParameterSymbol>, ens: PExp, j: nat)
    requires j <= |params| && EnsuresFold(g, params[..j], ens).Error?
    ensures EnsuresFold(g, params, ens) == EnsuresFold(g, params[..j], ens)
    decreases |params| - j
  {
    if j < |params| {
      assert params[..j + 1][..j] == params[..j];
      assert EnsuresFold(g, params[..j + 1], ens) == EnsuresFold(g, params[..j], ens);
      EnsuresFoldError(g, params, ens, j + 1);
    } else {
      assert params[..j] == params;
    }
  }
  /** The body of `modifyRequiresByParams`'s loop, for one parameter. */
  method RequiresForParam(conjuncts: seq<PExp>, resultingRequires: PExp, p: ProgParameterSymbol) returns (r: Result<RequiresAcc>)
    ensures r == RequiresStep(RequiresAcc(conjuncts, resultingRequires), p)
  {
    var t := p.declaredType;
    var param := AsPSymbol(p);
    if !IsNamed(t) {
      return Success(RequiresAcc(conjuncts, resultingRequires));
    }
    var exemplar := NamedSymbol(ExemplarName(t), ToMath(t), false);
    var init := InitializationEnsures(t);
    init := SubstituteOne(init, exemplar, param);
    var implContingentConjuncts := conjuncts + [init];
    if t.PTFamily? {
      var constraint := SubstituteOne(t.familyConstraint, exemplar, param);
      implContingentConjuncts := implContingentConjuncts + [constraint];
      assert implContingentConjuncts == conjuncts + [init, constraint];
      return Success(RequiresAcc(implContingentConjuncts, resultingRequires));
    }
    var repr := t.reprSymbol;
    var convention := SubstituteOne(repr.convention, exemplar, param);
    implContingentConjuncts := implContingentConjuncts + [convention];
    assert implContingentConjuncts == conjuncts + [init, convention];
    var rewritten := SubstituteOne(resultingRequires, exemplar, repr.conceptualExemplar);
    var reduced := WithCorrespondencePartsSubstituted(rewritten, repr.correspondence);
    if reduced.Error? {
      return Error(reduced.error);
    }
    r := Success(RequiresAcc(implContingentConjuncts, reduced.value));
  }

  /** `modifyRequiresByParams` as written: a loop over the parameters. */
  method ModifyRequiresByParams(g: TypeGraph, params: seq<ProgParameterSymbol>, req: PExp) returns (r: Result<PExp>)
    ensures r == ModifiedRequires(g, params, req)
  {
    var implContingentConjuncts: seq<PExp> := [];
    var resultingRequires := req;
    for i := 0 to |params|
      invariant RequiresFold(params[..i], req) == Success(RequiresAcc(implContingentConjuncts, resultingRequires))
    {
      RequiresFoldNext(params, i, req, RequiresAcc(implContingentConjuncts, resultingRequires));
      var next := RequiresForParam(implContingentConjuncts, resultingRequires, params[i]);
      if next.Error? {
        RequiresFoldError(params, req, i + 1);
        return Error(next.error);
      }
      implContingentConjuncts := next.value.conjuncts;
      resultingRequires := next.value.rewritten;
    }
    assert params[..|params|] == params;
    implContingentConjuncts := implContingentConjuncts + [resultingRequires];
    r := Success(g.formConjuncts(implContingentConjuncts));
  }

  /** The body of `modifyEnsuresByParams`'s loop, for one parameter. */
  method EnsuresForParam(g: TypeGraph, conjuncts: seq<PExp>, resultingEnsures: PExp, p: ProgParameterSymbol) returns (r: Result<EnsuresAcc>)
    ensures r == EnsuresStep(g, EnsuresAcc(conjuncts, resultingEnsures), p)
  {
    var paramExp := NamedSymbol(p.name, ToMath(p.declaredType), false);
    var incParamExp := NamedSymbol(p.name, ToMath(p.declaredType), true);
    var t := p.declaredType;
    if !IsNamed(t) {
      return Success(EnsuresAcc(conjuncts, resultingEnsures));
    }
    var exemplar := NamedSymbol(ExemplarName(t), ToMath(t), false);
    var implContingentConjuncts := conjuncts;
    var ensuresSoFar := resultingEnsures;
    if t.PTRepresentation? {
      var repr := t.reprSymbol;
      var convention := SubstituteOne(repr.convention, exemplar, paramExp);
      implContingentConjuncts := implContingentConjuncts + [convention];
      ensuresSoFar := SubstituteOne(ensuresSoFar, exemplar, repr.conceptualExemplar);
      var reduced := WithCorrespondencePartsSubstituted(ensuresSoFar, repr.correspondence);
      if reduced.Error? {
        return Error(reduced.error);
      }
      ensuresSoFar := reduced.value;
    }
    ghost var afterRepr := EnsuresAcc(implContingentConjuncts, ensuresSoFar);
    assert t.PTRepresentation? ==> ReprRewrite(EnsuresAcc(conjuncts, resultingEnsures), p) == Success(afterRepr);
    if p.mode == Preserves || p.mode == Restores {
      var equalsExp := PSymbol("=", "=", "=", None, [paramExp, incParamExp], false, false, QNone, SInfix, BOOLEAN, None);
      ensuresSoFar := if !IsLiteral(ensuresSoFar) then g.formConjunct(ensuresSoFar, equalsExp) else equalsExp;
    } else if p.mode == Clears {
      var init := SubstituteOne(InitializationEnsures(t), exemplar, paramExp);
      ensuresSoFar := if !IsLiteral(ensuresSoFar) then g.formConjunct(ensuresSoFar, init) else init;
    }
    assert ModeRewrite(g, afterRepr, p) == EnsuresAcc(implContingentConjuncts, ensuresSoFar);
    r := Success(EnsuresAcc(implContingentConjuncts, ensuresSoFar));
  }

  /** `modifyEnsuresByParams` as written: a loop over the parameters. */
  method ModifyEnsuresByParams(g: TypeGraph, params: seq<ProgParameterSymbol>, ens: PExp) returns (r: Result<PExp>)
    ensures r == ModifiedEnsures(g, params, ens)
  {
    var implContingentConjuncts: seq<PExp> := [];
    var resultingEnsures := ens;
    for i := 0 to |params|
      invariant EnsuresFold(g, params[..i], ens) == Success(EnsuresAcc(implContingentConjuncts, resultingEnsures))
    {
      EnsuresFoldNext(g, params, i, ens, EnsuresAcc(implContingentConjuncts, resultingEnsures));
      var next := EnsuresForParam(g, implContingentConjuncts, resultingEnsures, params[i]);
      if next.Error? {
        EnsuresFoldError(g, params, ens, i + 1);
        return Error(next.error);
      }
      implContingentConjuncts := next.value.conjuncts;
      resultingEnsures := next.value.rewritten;
    }
    assert params[..|params|] == params;
    implContingentConjuncts := implContingentConjuncts + [resultingEnsures];
    r := Success(g.formConjuncts(implContingentConjuncts));
  }

  /** A block as a builder starts it: a name, free variables and assumptions, nothing else. */
  function OpenedBlock(name: string, freeVars: seq<FreeVariable>, assumptions: seq<PExp>): AssertiveBlock {
    AssertiveBlock(name, freeVars, assumptions, [], [], [], false)
  }

  /**
   * The block of a procedure: it assumes the rewritten requires, then the
   * module-level requires, then the module-level constraints, final-confirms
   * the rewritten ensures and is remembered.
   */
  function ProcedureBlock(name: string, freeVars: seq<FreeVariable>, localRequires: PExp, moduleRequires: seq<PExp>,
                          moduleConstraints: seq<PExp>, localEnsures: PExp): (r: AssertiveBlock)
    ensures |r.assumptions| == 1 + |moduleRequires| + |moduleConstraints| && r.assumptions[0] == localRequires
    ensures r.finalConfirm == [Sequent([], [localEnsures])] && r.remembered
  {
    AssertiveBlock("Correct_Op_Hypo=" + name, freeVars, [localRequires] + moduleRequires + moduleConstraints,
                   [], [Sequent([], [localEnsures])], [], true)
  }

  /** What a representation block final-confirms: the type model's constraint over the conceptual exemplar, reduced. */
  function ReprConstraintGoal(g: TypeGraph, repr: ReprTypeSymbol): Result<PExp> {
    var constraint := if repr.definition.Some? then repr.definition.value.constraint else g.trueExp;
    CorrespondenceReduce(repr.correspondence, SubstituteOne(constraint, repr.exemplar, repr.conceptualExemplar))
  }

  /** What a type initialization block final-confirms: the type model's initialization ensures, treated the same way. */
  function ReprInitGoal(g: TypeGraph, repr: ReprTypeSymbol): Result<PExp> {
    var initEnsures := if repr.definition.Some? then repr.definition.value.modelInitEnsures else g.trueExp;
    CorrespondenceReduce(repr.correspondence, SubstituteOne(initEnsures, repr.exemplar, repr.conceptualExemplar))
  }

  class ModelBuilder {
    const g: TypeGraph
    const moduleScopes: ModuleScopes
    const assertiveBlocks: BlockDeque
    var outputFile: seq<AssertiveBlock>
    var moduleScope: Option<ModuleScopeInfo>
    var currentTypeReprSym: Option<ReprTypeSymbol>
    var stats: map<nat, VCStat>

    constructor(g: TypeGraph, moduleScopes: ModuleScopes)
      ensures this.g == g && this.moduleScopes == moduleScopes
      ensures fresh(assertiveBlocks) && assertiveBlocks.items == []
      ensures outputFile == [] && moduleScope == None && currentTypeReprSym == None && stats == map[]
    {
      this.g := g;
      this.moduleScopes := moduleScopes;
      assertiveBlocks := new BlockDeque();
      outputFile := [];
      moduleScope := None;
      currentTypeReprSym := None;
      stats := map[];
    }

    /** `enterModule`: the module's scope, absent (null) when the table lacks it. */
    method EnterModule(name: string)
      modifies this`moduleScope
      ensures moduleScope == if name in moduleScopes then Some(moduleScopes[name]) else None
    {
      if name in moduleScopes {
        moduleScope := Some(moduleScopes[name]);
      } else {
        moduleScope := None;
      }
    }

    /** The assertions of a kind over the current module's related modules; no current module is a null dereference. */
    function LevelAssertions(k: ClauseKind): (r: Result<seq<PExp>>)
      reads this
      ensures moduleScope.None? ==> r == Error(NullPointer)
    {
      if moduleScope.None? then Error(NullPointer)
      else ModuleLevelAssertions(moduleScopes, moduleScope.value.relatedModules, k)
    }

    /** `getModuleLevelAssertionsOfType` as written: a loop over the related modules. */
    method GetModuleLevelAssertionsOfType(k: ClauseKind) returns (r: Result<seq<PExp>>)
      ensures r == LevelAssertions(k)
    {
      if moduleScope.None? {
        return Error(NullPointer);
      }
      var related := moduleScope.value.relatedModules;
      var result: seq<PExp> := [];
      for i := 0 to |related|
        invariant ModuleLevelAssertions(moduleScopes, related[..i], k) == Success(result)
      {
        assert related[..i + 1][..i] == related[..i];
        if related[i] !in moduleScopes {
          assert related[..i + 1][i] == related[i];
          return Error(NullPointer);
        }
        var intermediates := AssertionsOfKind(moduleScopes[related[i]].assertions, k);
        result := result + intermediates;
      }
      assert related[..|related|] == related;
      r := Success(result);
    }

    /**
     * `enterTypeRepresentationDecl`: the representation symbol is looked up
     * (a failed lookup leaves it null), and a block assuming the module-level
     * requires and the convention is pushed; with no symbol the convention is
     * a null dereference and nothing is pushed.
     */
    method EnterTypeRepresentationDecl(name: string, symbols: seq<ScopeSymbol>, lookup: Result<ReprTypeSymbol>)
      returns (r: Result<()>)
      modifies this, assertiveBlocks
      ensures currentTypeReprSym == if lookup.Success? then Some(lookup.value) else None
      ensures r.Success? <==> lookup.Success? && old(LevelAssertions(RequiresClause)).Success?
      ensures r.Error? ==> assertiveBlocks.items == old(assertiveBlocks.items)
      ensures r.Success? ==>
        && |assertiveBlocks.items| == |old(assertiveBlocks.items)| + 1
        && fresh(assertiveBlocks.items[0]) && assertiveBlocks.items[1..] == old(assertiveBlocks.items)
        && assertiveBlocks.items[0].Snapshot() == OpenedBlock("Well_Def_Corr_Hyp=" + name, FreeVars(symbols),
             old(LevelAssertions(RequiresClause)).value + [lookup.value.convention])
      ensures outputFile == old(outputFile) && moduleScope == old(moduleScope) && stats == old(stats)
    {
      currentTypeReprSym := None;
      if lookup.Success? {
        currentTypeReprSym := Some(lookup.value);
      }
      var block := new VCAssertiveBlockBuilder("Well_Def_Corr_Hyp=" + name);
      block.SetFreeVars(FreeVars(symbols));
      var moduleRequires := GetModuleLevelAssertionsOfType(RequiresClause);
      if moduleRequires.Error? {
        return Error(moduleRequires.error);
      }
      block.AssumeAll(moduleRequires.value);
      if currentTypeReprSym.None? {
        return Error(NullPointer);
      }
      block.Assume(currentTypeReprSym.value.convention);
      assertiveBlocks.Push(block);
      r := Success(());
    }

    /**
     * `exitTypeRepresentationDecl`: with no representation symbol nothing is
     * popped or emitted; otherwise the block is popped, final-confirms the
     * reduced constraint and is emitted.
     */
    method ExitTypeRepresentationDecl() returns (r: Result<()>)
      modifies this, assertiveBlocks, assertiveBlocks.Peek()
      ensures currentTypeReprSym.None? ==> r.Success? && assertiveBlocks.items == old(assertiveBlocks.items) && outputFile == old(outputFile)
      ensures currentTypeReprSym.Some? ==>
        (r.Success? <==> ReprConstraintGoal(g, currentTypeReprSym.value).Success? && old(assertiveBlocks.items) != [])
      ensures r.Error? ==> outputFile == old(outputFile)
      ensures r.Success? && currentTypeReprSym.Some? ==>
        && assertiveBlocks.items == old(assertiveBlocks.items)[1..]
        && outputFile == old(outputFile) + [old(assertiveBlocks.items[0].Snapshot()).(finalConfirm := [Sequent([], [ReprConstraintGoal(g, currentTypeReprSym.value).value])])]
      ensures r.Success? && currentTypeReprSym.Some? ==>
        forall i :: 0 <= i < |assertiveBlocks.items| && assertiveBlocks.items[i] != old(assertiveBlocks.items[0]) ==>
          assertiveBlocks.items[i].Snapshot() == old(assertiveBlocks.items[i + 1].Snapshot())
      ensures forall b :: b in old(assertiveBlocks.items) && b != old(assertiveBlocks.items[0]) ==> b.Snapshot() == old(b.Snapshot())
      ensures r.Error? || currentTypeReprSym.None? ==>
        && assertiveBlocks.items == old(assertiveBlocks.items)
        && forall i :: 0 <= i < |assertiveBlocks.items| ==> assertiveBlocks.items[i].Snapshot() == old(assertiveBlocks.items[i].Snapshot())
      ensures currentTypeReprSym == old(currentTypeReprSym) && moduleScope == old(moduleScope) && stats == old(stats)
    {
      var constraint := g.trueExp;
      if currentTypeReprSym.None? {
        return Success(());
      }
      var repr := currentTypeReprSym.value;
      if repr.definition.Some? {
        constraint := repr.definition.value.constraint;
      }
      var newConstraint := SubstituteOne(constraint, repr.exemplar, repr.conceptualExemplar);
      var reduced := WithCorrespondencePartsSubstituted(newConstraint, repr.correspondence);
      if reduced.Error? {
        return Error(reduced.error);
      }
      var popped := assertiveBlocks.Pop();
      if popped.Error? {
        return Error(popped.error);
      }
      var block := popped.value;
      block.FinalConfirmExp(reduced.value);
      outputFile := outputFile + [block.Snapshot()];
      r := Success(());
    }

    /** `enterTypeImplInit`: a block assuming the module-level requires, named after the representation. */
    method EnterTypeImplInit() returns (r: Result<()>)
      modifies assertiveBlocks
      ensures r.Success? <==> currentTypeReprSym.Some? && LevelAssertions(RequiresClause).Success?
      ensures r.Error? ==> assertiveBlocks.items == old(assertiveBlocks.items)
      ensures r.Success? ==>
        && |assertiveBlocks.items| == |old(assertiveBlocks.items)| + 1
        && fresh(assertiveBlocks.items[0]) && assertiveBlocks.items[1..] == old(assertiveBlocks.items)
        && assertiveBlocks.items[0].Snapshot() == OpenedBlock("T_Init_Hypo=" + currentTypeReprSym.value.reprName, [],
             LevelAssertions(RequiresClause).value)
    {
      if currentTypeReprSym.None? {
        return Error(NullPointer);
      }
      var block := new VCAssertiveBlockBuilder("T_Init_Hypo=" + currentTypeReprSym.value.reprName);
      var moduleRequires := GetModuleLevelAssertionsOfType(RequiresClause);
      if moduleRequires.Error? {
        return Error(moduleRequires.error);
      }
      block.AssumeAll(moduleRequires.value);
      assertiveBlocks.Push(block);
      r := Success(());
    }

    /** The type model's initialization ensures (true without a model), over the conceptual exemplar and reduced. */
    method ReduceInitEnsures(repr: ReprTypeSymbol) returns (r: Result<PExp>)
      ensures r == ReprInitGoal(g, repr)
    {
      var typeInitEnsures := g.trueExp;
      if repr.definition.Some? {
        typeInitEnsures := repr.definition.value.modelInitEnsures;
      }
      var newInitEnsures := SubstituteOne(typeInitEnsures, repr.exemplar, repr.conceptualExemplar);
      r := WithCorrespondencePartsSubstituted(newInitEnsures, repr.correspondence);
    }

    /**
     * `exitTypeImplInit`: the block is popped, adds the collected statements,
     * confirms the convention, final-confirms the reduced initialization
     * ensures and is emitted.
     */
    method ExitTypeImplInit(collected: seq<VCStat>) returns (r: Result<()>)
      modifies this, assertiveBlocks, assertiveBlocks.Peek()
      ensures r.Success? <==> currentTypeReprSym.Some? && ReprInitGoal(g, currentTypeReprSym.value).Success? && old(assertiveBlocks.items) != []
      ensures r.Error? ==> outputFile == old(outputFile)
      ensures r.Success? ==>
        var before := old(assertiveBlocks.items[0].Snapshot());
        && assertiveBlocks.items == old(assertiveBlocks.items)[1..]
        && outputFile == old(outputFile) + [before.(stats := before.stats + collected,
             confirms := before.confirms + [currentTypeReprSym.value.convention],
             finalConfirm := [Sequent([], [ReprInitGoal(g, currentTypeReprSym.value).value])])]
      ensures forall b :: b in old(assertiveBlocks.items) && b != old(assertiveBlocks.items[0]) ==> b.Snapshot() == old(b.Snapshot())
      ensures r.Error? ==> assertiveBlocks.items == old(assertiveBlocks.items)
      ensures r.Error? ==> forall b :: b in old(assertiveBlocks.items) ==> b.Snapshot() == old(b.Snapshot())
      ensures currentTypeReprSym == old(currentTypeReprSym) && moduleScope == old(moduleScope) && stats == old(stats)
    {
      if currentTypeReprSym.None? {
        return Error(NullPointer);
      }
      var repr := currentTypeReprSym.value;
      var reduced := ReduceInitEnsures(repr);
      if reduced.Error? {
        return Error(reduced.error);
      }
      r := EmitInitBlock(collected, repr.convention, reduced.value);
    }

    /**
     * The closing half of `exitTypeImplInit`: the top block is popped, gets
     * the collected statements, confirms the convention, final-confirms the
     * goal and is emitted; an empty stack is `NoSuchElementException`.
     */
    method EmitInitBlock(collected: seq<VCStat>, convention: PExp, goal: PExp) returns (r: Result<()>)
      modifies this`outputFile, assertiveBlocks, assertiveBlocks.Peek()
      ensures r.Success? <==> old(assertiveBlocks.items) != []
      ensures r.Error? ==> r.error == NoSuchElement && outputFile == old(outputFile)
      ensures r.Success? ==>
        var before := old(assertiveBlocks.items[0].Snapshot());
        && assertiveBlocks.items == old(assertiveBlocks.items)[1..]
        && outputFile == old(outputFile) + [before.(stats := before.stats + collected, confirms := before.confirms + [convention],
             finalConfirm := [Sequent([], [goal])])]
      ensures forall b :: b in old(assertiveBlocks.items) && b != old(assertiveBlocks.items[0]) ==> b.Snapshot() == old(b.Snapshot())
      ensures r.Error? ==> assertiveBlocks.items == old(assertiveBlocks.items)
    {
      var popped := assertiveBlocks.Pop();
      if popped.Error? {
        return Error(popped.error);
      }
      var block := popped.value;
      ghost var taken := block.Snapshot();
      block.AddStats(collected);
      block.Confirm(convention);
      block.FinalConfirmExp(goal);
      assert block.Snapshot() == taken.(stats := taken.stats + collected, confirms := taken.confirms + [convention],
        finalConfirm := [Sequent([], [goal])]);
      outputFile := outputFile + [block.Snapshot()];
      r := Success(());
    }

    /**
     * The block `enterProcedureDecl` builds from the rewritten requires and
     * ensures: it fails when the module-level assertions cannot be read.
     */
    method BuildProcedureBlock(name: string, symbols: seq<ScopeSymbol>, localRequires: PExp, localEnsures: PExp)
      returns (r: Result<VCAssertiveBlockBuilder>)
      ensures r.Success? <==> LevelAssertions(RequiresClause).Success? && LevelAssertions(ConstraintClause).Success?
      ensures r.Error? ==> r.error == NullPointer
      ensures r.Success? ==> fresh(r.value) && r.value.Snapshot() == ProcedureBlock(name, FreeVars(symbols), localRequires,
        LevelAssertions(RequiresClause).value, LevelAssertions(ConstraintClause).value, localEnsures)
    {
      var block := new VCAssertiveBlockBuilder("Correct_Op_Hypo=" + name);
      block.SetFreeVars(FreeVars(symbols));
      block.Assume(localRequires);
      var moduleRequires := GetModuleLevelAssertionsOfType(RequiresClause);
      if moduleRequires.Error? {
        return Error(moduleRequires.error);
      }
      block.AssumeAll(moduleRequires.value);
      var constraints := GetModuleLevelAssertionsOfType(ConstraintClause);
      if constraints.Error? {
        return Error(constraints.error);
      }
      block.AssumeAll(constraints.value);
      block.FinalConfirmExp(localEnsures);
      block.Remember();
      assert block.assumptions == [localRequires] + moduleRequires.value + constraints.value;
      r := Success(block);
    }

    /**
     * `enterProcedureDecl`: a failed operation lookup is caught and nothing
     * is pushed; otherwise the requires and ensures are rewritten for the
     * parameters and the procedure block is pushed.
     */
    method EnterProcedureDecl(name: string, symbols: seq<ScopeSymbol>, params: seq<ProgParameterSymbol>,
                              operation: Result<(PExp, PExp)>) returns (r: Result<()>)
      modifies assertiveBlocks
      ensures operation.Error? ==> r.Success? && assertiveBlocks.items == old(assertiveBlocks.items)
      ensures operation.Success? ==>
        (r.Success? <==>
          && ModifiedRequires(g, params, operation.value.0).Success?
          && ModifiedEnsures(g, params, operation.value.1).Success?
          && LevelAssertions(RequiresClause).Success?
          && LevelAssertions(ConstraintClause).Success?)
      ensures operation.Success? && r.Error? ==> assertiveBlocks.items == old(assertiveBlocks.items)
      ensures operation.Success? && r.Success? ==>
        && |assertiveBlocks.items| == |old(assertiveBlocks.items)| + 1
        && fresh(assertiveBlocks.items[0]) && assertiveBlocks.items[1..] == old(assertiveBlocks.items)
        && assertiveBlocks.items[0].Snapshot() == ProcedureBlock(name, FreeVars(symbols),
             ModifiedRequires(g, params, operation.value.0).value,
             LevelAssertions(RequiresClause).value, LevelAssertions(ConstraintClause).value,
             ModifiedEnsures(g, params, operation.value.1).value)
    {
      if operation.Error? {
        return Success(());
      }
      var localRequires := ModifyRequiresByParams(g, params, operation.value.0);
      if localRequires.Error? {
        return Error(localRequires.error);
      }
      var localEnsures := ModifyEnsuresByParams(g, params, operation.value.1);
      if localEnsures.Error? {
        return Error(localEnsures.error);
      }
      var block := BuildProcedureBlock(name, symbols, localRequires.value, localEnsures.value);
      if block.Error? {
        return Error(block.error);
      }
      assertiveBlocks.Push(block.value);
      r := Success(());
    }

    /** `exitProcedureDecl`: the block is popped, adds the collected statements and is emitted. */
    method ExitProcedureDecl(collected: seq<VCStat>) returns (r: Result<()>)
      modifies this, assertiveBlocks, assertiveBlocks.Peek()
      ensures r.Success? <==> old(assertiveBlocks.items) != []
      ensures r.Error? ==> r.error == NoSuchElement && outputFile == old(outputFile)
      ensures r.Success? ==>
        && assertiveBlocks.items == old(assertiveBlocks.items)[1..]
        && outputFile == old(outputFile) + [old(assertiveBlocks.items[0].Snapshot()).(stats := old(assertiveBlocks.items[0].Snapshot()).stats + collected)]
      ensures r.Success? ==> forall i :: 0 <= i < |assertiveBlocks.items| && assertiveBlocks.items[i] != old(assertiveBlocks.items[0]) ==>
        assertiveBlocks.items[i].Snapshot() == old(assertiveBlocks.items[i + 1].Snapshot())
      ensures currentTypeReprSym == old(currentTypeReprSym) && moduleScope == old(moduleScope) && stats == old(stats)
    {
      var popped := assertiveBlocks.Pop();
      if popped.Error? {
        return Error(popped.error);
      }
      var block := popped.value;
      block.AddStats(collected);
      outputFile := outputFile + [block.Snapshot()];
      r := Success(());
    }

    /**
     * A procedure with no nested declaration, entered and left: the stack is
     * back as it was and exactly the procedure's block, with its statements,
     * has been emitted.
     */
    method VisitProcedure(name: string, symbols: seq<ScopeSymbol>, params: seq<ProgParameterSymbol>,
                          req: PExp, ens: PExp, collected: seq<VCStat>) returns (r: Result<()>)
      modifies this, assertiveBlocks
      ensures r.Success? <==>
        && ModifiedRequires(g, params, req).Success? && ModifiedEnsures(g, params, ens).Success?
        && old(LevelAssertions(RequiresClause)).Success? && old(LevelAssertions(ConstraintClause)).Success?
      ensures r.Success? ==>
        && assertiveBlocks.items == old(assertiveBlocks.items)
        && outputFile == old(outputFile) + [ProcedureBlock(name, FreeVars(symbols),
             ModifiedRequires(g, params, req).value,
             old(LevelAssertions(RequiresClause)).value, old(LevelAssertions(ConstraintClause)).value,
             ModifiedEnsures(g, params, ens).value).(stats := collected)]
      ensures r.Error? ==> outputFile == old(outputFile) && assertiveBlocks.items == old(assertiveBlocks.items)
      ensures forall i :: 0 <= i < |old(assertiveBlocks.items)| ==>
        old(assertiveBlocks.items[i]).Snapshot() == old(assertiveBlocks.items[i].Snapshot())
    {
      ghost var before := assertiveBlocks.items;
      r := EnterProcedureDecl(name, symbols, params, Success((req, ens)));
      if r.Error? {
        return;
      }
      ghost var expected := ProcedureBlock(name, FreeVars(symbols), ModifiedRequires(g, params, req).value,
        LevelAssertions(RequiresClause).value, LevelAssertions(ConstraintClause).value, ModifiedEnsures(g, params, ens).value);
      assert assertiveBlocks.items[0].Snapshot() == expected;
      assert assertiveBlocks.items[1..] == before;
      assert expected.stats + collected == collected;
      r := ExitProcedureDecl(collected);
      assert r.Success?;
    }

    /**
     * The initialization of the representation in hand, entered and left:
     * its block is emitted with the collected statements, the convention
     * confirmed and the reduced initialization ensures final-confirmed, and
     * the stack is back as it was.
     */
    method VisitTypeImplInit(collected: seq<VCStat>) returns (r: Result<()>)
      modifies this, assertiveBlocks
      ensures r.Success? <==>
        && currentTypeReprSym.Some? && old(LevelAssertions(RequiresClause)).Success?
        && ReprInitGoal(g, currentTypeReprSym.value).Success?
      ensures r.Success? ==>
        var repr := currentTypeReprSym.value;
        && assertiveBlocks.items == old(assertiveBlocks.items)
        && outputFile == old(outputFile) + [
             OpenedBlock("T_Init_Hypo=" + repr.reprName, [], old(LevelAssertions(RequiresClause)).value).(stats := collected,
               confirms := [repr.convention], finalConfirm := [Sequent([], [ReprInitGoal(g, repr).value])])]
      ensures r.Error? ==> outputFile == old(outputFile)
      ensures forall b :: b in old(assertiveBlocks.items) ==> b.Snapshot() == old(b.Snapshot())
      ensures currentTypeReprSym == old(currentTypeReprSym) && moduleScope == old(moduleScope) && stats == old(stats)
      ensures LevelAssertions(RequiresClause) == old(LevelAssertions(RequiresClause))
    {
      ghost var before := assertiveBlocks.items;
      ghost var moduleRequires := LevelAssertions(RequiresClause);
      r := EnterTypeImplInit();
      if r.Error? {
        return;
      }
      ghost var openedInit := assertiveBlocks.items[0].Snapshot();
      assert assertiveBlocks.items[1..] == before;
      r := ExitTypeImplInit(collected);
      assert openedInit.stats + collected == collected;
      assert r.Success? ==> openedInit.confirms + [currentTypeReprSym.value.convention] == [currentTypeReprSym.value.convention];
    }

    /**
     * What follows entering a representation: its initialization is walked,
     * then the representation block on top of the stack is popped and
     * emitted after the initialization block; every other block is left as
     * it was.
     */
    method VisitRepresentationBody(collected: seq<VCStat>) returns (r: Result<()>)
      modifies this, assertiveBlocks, assertiveBlocks.Peek()
      ensures r.Success? <==>
        && currentTypeReprSym.Some? && old(LevelAssertions(RequiresClause)).Success?
        && ReprInitGoal(g, currentTypeReprSym.value).Success? && ReprConstraintGoal(g, currentTypeReprSym.value).Success?
        && old(assertiveBlocks.items) != []
      ensures r.Success? ==>
        var repr := currentTypeReprSym.value;
        && assertiveBlocks.items == old(assertiveBlocks.items)[1..]
        && outputFile == old(outputFile) + [
             OpenedBlock("T_Init_Hypo=" + repr.reprName, [], old(LevelAssertions(RequiresClause)).value).(stats := collected,
               confirms := [repr.convention], finalConfirm := [Sequent([], [ReprInitGoal(g, repr).value])]),
             old(assertiveBlocks.items[0].Snapshot()).(finalConfirm := [Sequent([], [ReprConstraintGoal(g, repr).value])])]
      ensures forall b :: b in old(assertiveBlocks.items) && b != old(assertiveBlocks.items[0]) ==> b.Snapshot() == old(b.Snapshot())
      ensures currentTypeReprSym == old(currentTypeReprSym)
    {
      ghost var before := assertiveBlocks.items;
      ghost var top := if before == [] then None else Some(before[0].Snapshot());
      r := VisitTypeImplInit(collected);
      if r.Error? {
        return;
      }
      ghost var withInit := outputFile;
      assert assertiveBlocks.items == before;
      r := ExitTypeRepresentationDecl();
      assert r.Success? ==> outputFile == withInit + [top.value.(
        finalConfirm := [Sequent([], [ReprConstraintGoal(g, currentTypeReprSym.value).value])])];
    }

    /**
     * A representation holding its initialization, entered and left in the
     * order of the tree walk: the initialization block is emitted first, then
     * the representation block, which still holds exactly what entering the
     * representation gave it, and the stack is back as it was.
     */
    method VisitRepresentation(name: string, symbols: seq<ScopeSymbol>, lookup: Result<ReprTypeSymbol>,
                               collected: seq<VCStat>) returns (r: Result<()>)
      modifies this, assertiveBlocks
      ensures r.Success? <==>
        && lookup.Success? && old(LevelAssertions(RequiresClause)).Success?
        && ReprInitGoal(g, lookup.value).Success? && ReprConstraintGoal(g, lookup.value).Success?
      ensures r.Success? ==>
        var moduleRequires := old(LevelAssertions(RequiresClause)).value;
        var repr := lookup.value;
        && assertiveBlocks.items == old(assertiveBlocks.items)
        && outputFile == old(outputFile) + [
             OpenedBlock("T_Init_Hypo=" + repr.reprName, [], moduleRequires).(stats := collected,
               confirms := [repr.convention], finalConfirm := [Sequent([], [ReprInitGoal(g, repr).value])]),
             OpenedBlock("Well_Def_Corr_Hyp=" + name, FreeVars(symbols), moduleRequires + [repr.convention]).(
               finalConfirm := [Sequent([], [ReprConstraintGoal(g, repr).value])])]
      ensures forall i :: 0 <= i < |old(assertiveBlocks.items)| ==>
        old(assertiveBlocks.items[i]).Snapshot() == old(assertiveBlocks.items[i].Snapshot())
    {
      ghost var before := assertiveBlocks.items;
      ghost var moduleRequires := LevelAssertions(RequiresClause);
      r := EnterTypeRepresentationDecl(name, symbols, lookup);
      if r.Error? {
        return;
      }
      assert LevelAssertions(RequiresClause) == moduleRequires;
      assert assertiveBlocks.items[0] !in before;
      r := VisitRepresentationBody(collected);
    }

    /** `exitStmt`: a statement takes the rule-backed statement of its first child, if any. */
    method ExitStmt(ctx: nat, child: nat)
      modifies this`stats
      ensures child in old(stats) ==> stats == old(stats)[ctx := old(stats)[child]]
      ensures child !in old(stats) ==> stats == old(stats) - {ctx}
    {
      if child in stats {
        stats := stats[ctx := stats[child]];
      } else {
        stats := stats - {ctx};
      }
    }

    /** `exitCallStmt`: an explicit-call statement in the block on top of the stack. */
    method ExitCallStmt(ctx: nat, progExp: PExp)
      modifies this`stats
      ensures stats == old(stats)[ctx := VCStat(assertiveBlocks.Peek(), "ExplicitCallApplication", [progExp])]
    {
      stats := stats[ctx := VCStat(assertiveBlocks.Peek(), "ExplicitCallApplication", [progExp])];
    }

    /** `exitSwapStmt`: a swap statement over the two sides. */
    method ExitSwapStmt(ctx: nat, left: PExp, right: PExp)
      modifies this`stats
      ensures stats == old(stats)[ctx := VCStat(assertiveBlocks.Peek(), "SwapApplication", [left, right])]
    {
      stats := stats[ctx := VCStat(assertiveBlocks.Peek(), "SwapApplication", [left, right])];
    }

    /** `exitAssignStmt`: a function assignment over the two sides. */
    method ExitAssignStmt(ctx: nat, left: PExp, right: PExp)
      modifies this`stats
      ensures stats == old(stats)[ctx := VCStat(assertiveBlocks.Peek(), "FunctionAssignApplication", [left, right])]
    {
      stats := stats[ctx := VCStat(assertiveBlocks.Peek(), "FunctionAssignApplication", [left, right])];
    }
  }
}

module ModelBuilderFacts {
  import opened Wrappers
  import opened Terms
  import opened Substitution
  import opened ProgTypes
  import opened ProgParameters
  import opened AssertiveBlocks
  import opened ModelBuilders

  /** The number of parameters of a named type: a family or a representation. */
  function NamedCount(params: seq<ProgParameterSymbol>): nat {
    if |params| == 0 then 0
    else NamedCount(params[..|params| - 1]) + if IsNamed(params[|params| - 1].declaredType) then 1 else 0
  }

  /** The number of parameters of a representation type. */
  function ReprCount(params: seq<ProgParameterSymbol>): nat {
    if |params| == 0 then 0
    else ReprCount(params[..|params| - 1]) + if params[|params| - 1].declaredType.PTRepresentation? then 1 else 0
  }

  /** Every parameter of a named type contributes exactly two conjuncts to the requires: its initialization and its constraint or convention. */
  lemma {:induction false} RequiresConjunctCount(params: seq<ProgParameterSymbol>, req: PExp)
    ensures RequiresFold(params, req).Success? ==> |RequiresFold(params, req).value.conjuncts| == 2 * NamedCount(params)
  {
    if |params| > 0 {
      RequiresConjunctCount(params[..|params| - 1], req);
    }
  }

  /** Every parameter of a representation type contributes exactly one conjunct, its convention, to the ensures. */
  lemma {:induction false} EnsuresConjunctCount(g: TypeGraph, params: seq<ProgParameterSymbol>, ens: PExp)
    ensures EnsuresFold(g, params, ens).Success? ==> |EnsuresFold(g, params, ens).value.conjuncts| == ReprCount(params)
  {
    if |params| > 0 {
      EnsuresConjunctCount(g, params[..|params| - 1], ens);
    }
  }

  /** Without a representation parameter nothing can fail, and the requires itself is kept unchanged, last. */
  lemma {:induction false} FamiliesKeepRequires(g: TypeGraph, params: seq<ProgParameterSymbol>, req: PExp)
    requires forall i :: 0 <= i < |params| ==> !params[i].declaredType.PTRepresentation?
    ensures RequiresFold(params, req).Success? && RequiresFold(params, req).value.rewritten == req
    ensures ModifiedRequires(g, params, req) == Success(g.formConjuncts(RequiresFold(params, req).value.conjuncts + [req]))
  {
    if |params| > 0 {
      FamiliesKeepRequires(g, params[..|params| - 1], req);
    }
  }

  /** Without a representation parameter the ensures rewriting cannot fail either, and it adds no conjunct. */
  lemma {:induction false} FamiliesAddNoEnsuresConjunct(g: TypeGraph, params: seq<ProgParameterSymbol>, ens: PExp)
    requires forall i :: 0 <= i < |params| ==> !params[i].declaredType.PTRepresentation?
    ensures EnsuresFold(g, params, ens).Success? && EnsuresFold(g, params, ens).value.conjuncts == []
  {
    if |params| > 0 {
      FamiliesAddNoEnsuresConjunct(g, params[..|params| - 1], ens);
    }
  }

  /** Parameters of a generic or record type contribute nothing: the requires and ensures are conjoined unchanged. */
  lemma {:induction false} UnnamedContributeNothing(g: TypeGraph, params: seq<ProgParameterSymbol>, req: PExp, ens: PExp)
    requires forall i :: 0 <= i < |params| ==> !IsNamed(params[i].declaredType)
    ensures RequiresFold(params, req) == Success(RequiresAcc([], req))
    ensures EnsuresFold(g, params, ens) == Success(EnsuresAcc([], ens))
    ensures ModifiedRequires(g, params, req) == Success(g.formConjuncts([req]))
    ensures ModifiedEnsures(g, params, ens) == Success(g.formConjuncts([ens]))
  {
    if |params| > 0 {
      UnnamedContributeNothing(g, params[..|params| - 1], req, ens);
    }
    assert [] + [req] == [req];
    assert [] + [ens] == [ens];
  }

  /** The conjuncts of a prefix of the parameters come first, in the same order, in the conjuncts of all of them. */
  lemma {:induction false} RequiresConjunctsInOrder(params: seq<ProgParameterSymbol>, req: PExp, j: nat)
    requires j <= |params| && RequiresFold(params, req).Success?
    ensures RequiresFold(params[..j], req).Success?
    ensures var pre := RequiresFold(params[..j], req).value.conjuncts;
      && |pre| <= |RequiresFold(params, req).value.conjuncts|
      && RequiresFold(params, req).value.conjuncts[..|pre|] == pre
    decreases |params| - j
  {
    if j == |params| {
      assert params[..j] == params;
    } else {
      var front := params[..|params| - 1];
      assert front[..j] == params[..j];
      RequiresConjunctsInOrder(front, req, j);
      var pre := RequiresFold(params[..j], req).value.conjuncts;
      var mid := RequiresFold(front, req).value.conjuncts;
      var all := RequiresFold(params, req).value.conjuncts;
      assert all[..|mid|] == mid;
      assert all[..|pre|] == mid[..|pre|];
    }
  }

  /** A single family parameter: its initialization, then its constraint, each about the parameter, then the requires. */
  lemma SingleFamilyParameter(g: TypeGraph, p: ProgParameterSymbol, req: PExp)
    requires p.declaredType.PTFamily?
    ensures var t := p.declaredType;
      var exemplar := ExemplarSymbol(t);
      ModifiedRequires(g, [p], req) == Success(g.formConjuncts([
        SubstituteOne(t.familyInitEnsures, exemplar, AsPSymbol(p)),
        SubstituteOne(t.familyConstraint, exemplar, AsPSymbol(p)),
        req]))
  {
    assert [p][..0] == [];
    var t := p.declaredType;
    var exemplar := ExemplarSymbol(t);
    var init := SubstituteOne(t.familyInitEnsures, exemplar, AsPSymbol(p));
    var constraint := SubstituteOne(t.familyConstraint, exemplar, AsPSymbol(p));
    assert RequiresFold([p], req) == RequiresStep(RequiresAcc([], req), p);
    assert RequiresStep(RequiresAcc([], req), p) == Success(RequiresAcc([init, constraint], req));
    assert [init, constraint] + [req] == [init, constraint, req];
  }

  /**
   * A single representation parameter: its initialization, then its
   * convention, each about the parameter, then the requires with the
   * exemplar replaced by the conceptual exemplar and the correspondence
   * reduced; a failing reduction fails the whole rewriting.
   */
  lemma SingleRepresentationParameter(g: TypeGraph, p: ProgParameterSymbol, req: PExp)
    requires p.declaredType.PTRepresentation?
    ensures var t := p.declaredType;
      var repr := t.reprSymbol;
      var exemplar := ExemplarSymbol(t);
      var reduced := Correspondence.CorrespondenceReduce(repr.correspondence, SubstituteOne(req, exemplar, repr.conceptualExemplar));
      && (ModifiedRequires(g, [p], req).Success? <==> reduced.Success?)
      && (reduced.Success? ==> ModifiedRequires(g, [p], req) == Success(g.formConjuncts([
           SubstituteOne(t.reprInitEnsures, exemplar, AsPSymbol(p)),
           SubstituteOne(repr.convention, exemplar, AsPSymbol(p)),
           reduced.value])))
  {
    assert [p][..0] == [];
    var t := p.declaredType;
    var repr := t.reprSymbol;
    var exemplar := ExemplarSymbol(t);
    var reduced := Correspondence.CorrespondenceReduce(repr.correspondence, SubstituteOne(req, exemplar, repr.conceptualExemplar));
    var init := SubstituteOne(t.reprInitEnsures, exemplar, AsPSymbol(p));
    var convention := SubstituteOne(repr.convention, exemplar, AsPSymbol(p));
    assert RequiresFold([p], req) == RequiresStep(RequiresAcc([], req), p);
    if reduced.Success? {
      assert RequiresStep(RequiresAcc([], req), p) == Success(RequiresAcc([init, convention], reduced.value));
      assert [init, convention] + [reduced.value] == [init, convention, reduced.value];
    }
  }

  /** A preserved or restored parameter of a family type replaces a literal ensures outright with `p = @p`. */
  lemma PreservesAddsEquality(g: TypeGraph, p: ProgParameterSymbol, ens: PExp)
    requires p.declaredType.PTFamily? && p.mode in {Preserves, Restores}
    ensures Queries.IsLiteral(ens) ==> EnsuresFold(g, [p], ens) == Success(EnsuresAcc([], EqualsExp(p)))
    ensures !Queries.IsLiteral(ens) ==> EnsuresFold(g, [p], ens) == Success(EnsuresAcc([], g.formConjunct(ens, EqualsExp(p))))
  {
    assert [p][..0] == [];
  }

  /** A cleared parameter of a family type conjoins its type's initialization ensures about the parameter. */
  lemma ClearsAddsInit(g: TypeGraph, p: ProgParameterSymbol, ens: PExp)
    requires p.declaredType.PTFamily? && p.mode == Clears
    ensures var init := SubstituteOne(p.declaredType.familyInitEnsures, ExemplarSymbol(p.declaredType), ParamExp(p));
      && (Queries.IsLiteral(ens) ==> EnsuresFold(g, [p], ens) == Success(EnsuresAcc([], init)))
      && (!Queries.IsLiteral(ens) ==> EnsuresFold(g, [p], ens) == Success(EnsuresAcc([], g.formConjunct(ens, init))))
  {
    assert [p][..0] == [];
  }

  /** A family parameter of any other mode leaves the ensures as it is. */
  lemma OtherModesKeepEnsures(g: TypeGraph, p: ProgParameterSymbol, ens: PExp)
    requires p.declaredType.PTFamily? && p.mode !in {Preserves, Restores, Clears}
    ensures ModifiedEnsures(g, [p], ens) == Success(g.formConjuncts([ens]))
  {
    assert [p][..0] == [];
    assert EnsuresFold(g, [p], ens) == Success(EnsuresAcc([], ens));
    assert [] + [ens] == [ens];
  }

  /** The parameter expression of the ensures rewriting is the parameter's own symbol, as the requires rewriting uses it. */
  lemma ParamExpIsParameterSymbol(p: ProgParameterSymbol)
    ensures ParamExp(p) == AsPSymbol(p)
    ensures EqualsExp(p).args == [AsPSymbol(p), AsPSymbol(p).(incoming := true)]
  {
  }

  /** The assertions of a list of related modules are those of its two parts, one after the other. */
  lemma {:induction false} LevelAssertionsConcatenate(scopes: ModuleScopes, a: seq<string>, b: seq<string>, k: ClauseKind)
    requires ModuleLevelAssertions(scopes, a + b, k).Success?
    ensures ModuleLevelAssertions(scopes, a, k).Success? && ModuleLevelAssertions(scopes, b, k).Success?
    ensures ModuleLevelAssertions(scopes, a + b, k).value == ModuleLevelAssertions(scopes, a, k).value + ModuleLevelAssertions(scopes, b, k).value
    decreases |b|
  {
    if |b| == 0 {
      assert a + b == a;
    } else {
      var front := b[..|b| - 1];
      var last := b[|b| - 1];
      var whole := a + b;
      assert whole[..|whole| - 1] == a + front;
      assert whole[|whole| - 1] == last;
      var prev := ModuleLevelAssertions(scopes, a + front, k);
      assert ModuleLevelAssertions(scopes, whole, k) == if prev.Error? then prev else if last !in scopes then Error(NullPointer)
        else Success(prev.value + AssertionsOfKind(scopes[last].assertions, k));
      LevelAssertionsConcatenate(scopes, a, front, k);
    }
  }

  /** The free variables of a scope are those of its two parts, in order. */
  lemma {:induction false} FreeVarsConcatenate(a: seq<ScopeSymbol>, b: seq<ScopeSymbol>)
    ensures FreeVars(a + b) == FreeVars(a) + FreeVars(b)
    decreases |b|
  {
    if |b| == 0 {
      assert a + b == a;
    } else {
      var front := b[..|b| - 1];
      assert (a + b)[..|a + b| - 1] == a + front;
      assert (a + b)[|a + b| - 1] == b[|b| - 1];
      FreeVarsConcatenate(a, front);
    }
  }
}
