/**
 * `ModuleParameterization`: a module named in a facility together with the
 * program types given for its generic parameters. Its scope is the module's
 * own, or, when instantiated, that scope seen through the map from each
 * formal generic's name to the type supplied for it.
 */
module ModuleParameterizations {
  import opened Wrappers
  import opened ProgTypes
  import opened ProgParameters
  import opened ModuleIdentifiers

  /**
   * What a module's formal parameter wraps: a program parameter (flagged
   * when its mode is `TYPE`), an operation, or a math definition.
   */
  datatype ModuleParameter =
    | WrapsProgParameter(param: ProgParameterSymbol, isTypeMode: bool)
    | WrapsOperation(opName: string, returnType: ProgType)
    | WrapsMathSymbol(mathName: string)

  /** A module's scope, as far as it is read here: its formal parameters in declaration order. */
  datatype ModuleScope = ModuleScope(moduleParams: seq<ModuleParameter>)

  /** The symbol table's module scopes, looked up by the module's name text. */
  type ScopeRepository = map<string, ModuleScope>

  datatype Scope =
    | OriginalScope(original: ModuleScope)
    | InstantiatedScope(base: ModuleScope, genericInstantiations: map<string, ProgType>, instantiatingFacility: string)

  datatype ModuleParameterization = ModuleParameterization(
    moduleIdentifier: ModuleIdentifier,
    actualGenerics: seq<ProgType>,
    instantiatingFacility: string)

  /** The formal generics: the wrapped program parameters of mode `TYPE`, in order; the rest are skipped. */
  function FormalGenerics(ps: seq<ModuleParameter>): (r: seq<ProgParameterSymbol>)
    ensures |r| <= |ps|
    ensures forall p :: p in r <==> WrapsProgParameter(p, true) in ps
  {
    if |ps| == 0 then []
    else
      var front := FormalGenerics(ps[..|ps| - 1]);
      var last := ps[|ps| - 1];
      assert ps == ps[..|ps| - 1] + [last];
      if last.WrapsProgParameter? && last.isTypeMode then front + [last.param] else front
  }

  /** The map filled by putting each formal's name with the actual at the same position, in order. */
  function Instantiations(formals: seq<ProgParameterSymbol>, actuals: seq<ProgType>): (r: map<string, ProgType>)
    requires |formals| == |actuals|
    ensures forall k :: k in r <==> exists i :: 0 <= i < |formals| && formals[i].name == k
    ensures |formals| > 0 ==> formals[|formals| - 1].name in r && r[formals[|formals| - 1].name] == actuals[|actuals| - 1]
  {
    if |formals| == 0 then map[]
    else
      var n := |formals| - 1;
      assert forall i :: 0 <= i < n ==> formals[..n][i] == formals[i];
      Instantiations(formals[..n], actuals[..n])[formals[n].name := actuals[n]]
  }

  /** `getGenericInstantiations`: the two lists must be as long as each other. */
  function GenericInstantiations(scope: ModuleScope, actuals: seq<ProgType>): (r: Result<map<string, ProgType>>)
    ensures r.Error? ==> r.error == Runtime("generic list sizes do not match")
  {
    var formals := FormalGenerics(scope.moduleParams);
    if |formals| != |actuals| then Error(Runtime("generic list sizes do not match"))
    else Success(Instantiations(formals, actuals))
  }

  /** `getGenericInstantiations` as written: one loop collects the formals, a second walks them beside the actuals. */
  method GetGenericInstantiations(scope: ModuleScope, actuals: seq<ProgType>) returns (r: Result<map<string, ProgType>>)
    ensures r == GenericInstantiations(scope, actuals)
  {
    var ps := scope.moduleParams;
    var formalGenerics: seq<ProgParameterSymbol> := [];
    for i := 0 to |ps|
      invariant formalGenerics == FormalGenerics(ps[..i])
    {
      assert ps[..i + 1][..i] == ps[..i];
      var param := ps[i];
      if param.WrapsProgParameter? {
        if param.isTypeMode {
          formalGenerics := formalGenerics + [param.param];
        }
      }
    }
    assert ps[..|ps|] == ps;
    if |formalGenerics| != |actuals| {
      return Error(Runtime("generic list sizes do not match"));
    }
    var result: map<string, ProgType> := map[];
    for j := 0 to |formalGenerics|
      invariant result == Instantiations(formalGenerics[..j], actuals[..j])
    {
      assert formalGenerics[..j + 1][..j] == formalGenerics[..j];
      assert actuals[..j + 1][..j] == actuals[..j];
      assert Instantiations(formalGenerics[..j + 1], actuals[..j + 1])
        == Instantiations(formalGenerics[..j], actuals[..j])[formalGenerics[j].name := actuals[j]];
      result := result[formalGenerics[j].name := actuals[j]];
    }
    assert formalGenerics[..|formalGenerics|] == formalGenerics && actuals[..|actuals|] == actuals;
    r := Success(result);
  }

  /** `getModuleScope`: a module the table does not hold throws `NoSuchModuleException`. */
  function GetModuleScope(repo: ScopeRepository, id: ModuleIdentifier): (r: Result<ModuleScope>)
    ensures r.Success? <==> id.name in repo
    ensures r.Error? ==> r.error == NoSuchModule
  {
    if id.name in repo then Success(repo[id.name]) else Error(NoSuchModule)
  }

  /**
   * `getScope`: the module's own scope, or that scope instantiated with the
   * generic bindings; the missing module and mismatched generic lists are
   * the two ways it fails.
   */
  function GetScope(mp: ModuleParameterization, repo: ScopeRepository, instantiated: bool): (r: Result<Scope>)
  {
    var original := GetModuleScope(repo, mp.moduleIdentifier);
    if original.Error? then Error(original.error)
    else if !instantiated then Success(OriginalScope(original.value))
    else
      var inst := GenericInstantiations(original.value, mp.actualGenerics);
      if inst.Error? then Error(inst.error)
      else Success(InstantiatedScope(original.value, inst.value, mp.instantiatingFacility))
  }
}

module ModuleParameterizationFacts {
  import opened Wrappers
  import opened ProgTypes
  import opened ProgParameters
  import opened ModuleIdentifiers
  import opened ModuleParameterizations

  /** No two formal generics share a name. */
  predicate DistinctFormalNames(formals: seq<ProgParameterSymbol>) {
    forall i, j :: 0 <= i < j < |formals| ==> formals[i].name != formals[j].name
  }

  /** With distinct names, each formal generic is bound to the actual at its own position. */
  lemma {:induction false} InstantiationBindsPositionally(formals: seq<ProgParameterSymbol>, actuals: seq<ProgType>, i: nat)
    requires |formals| == |actuals| && DistinctFormalNames(formals) && i < |formals|
    ensures formals[i].name in Instantiations(formals, actuals)
    ensures Instantiations(formals, actuals)[formals[i].name] == actuals[i]
  {
    var n := |formals| - 1;
    if i < n {
      assert formals[..n][i] == formals[i] && actuals[..n][i] == actuals[i];
      assert DistinctFormalNames(formals[..n]) by {
        forall a, b | 0 <= a < b < |formals[..n]|
          ensures formals[..n][a].name != formals[..n][b].name
        {
          assert formals[..n][a] == formals[a] && formals[..n][b] == formals[b];
        }
      }
      InstantiationBindsPositionally(formals[..n], actuals[..n], i);
      assert formals[n].name != formals[i].name;
    }
  }

  /** The instantiations are had exactly when there are as many actual generics as formal ones. */
  lemma InstantiationsNeedEqualLengths(scope: ModuleScope, actuals: seq<ProgType>)
    ensures GenericInstantiations(scope, actuals).Success? <==> |FormalGenerics(scope.moduleParams)| == |actuals|
  {
  }

  /** Parameters none of which is a program parameter of mode `TYPE` have no formal generics. */
  lemma {:induction false} NoTypeParameters(ps: seq<ModuleParameter>)
    requires forall p :: WrapsProgParameter(p, true) !in ps
    ensures FormalGenerics(ps) == []
  {
    if |ps| > 0 {
      var n := |ps| - 1;
      assert forall x :: x in ps[..n] ==> x in ps;
      NoTypeParameters(ps[..n]);
      assert ps[n] in ps;
    }
  }

  /** A module without formal generics instantiates to the empty map, and only with no actuals. */
  lemma NoFormalGenerics(scope: ModuleScope, actuals: seq<ProgType>)
    requires forall p :: WrapsProgParameter(p, true) !in scope.moduleParams
    ensures GenericInstantiations(scope, actuals) ==
      if |actuals| == 0 then Success(map[]) else Error(Runtime("generic list sizes do not match"))
  {
    NoTypeParameters(scope.moduleParams);
  }

  /**
   * `getScope`: not instantiated, it is the module's own scope whenever the
   * module is known; instantiated, it fails also on mismatched generics, and
   * otherwise carries the module's scope with the bindings.
   */
  lemma ScopeOutcomes(mp: ModuleParameterization, repo: ScopeRepository, instantiated: bool)
    ensures mp.moduleIdentifier.name !in repo ==> GetScope(mp, repo, instantiated) == Error(NoSuchModule)
    ensures mp.moduleIdentifier.name in repo && !instantiated ==>
      GetScope(mp, repo, instantiated) == Success(OriginalScope(repo[mp.moduleIdentifier.name]))
    ensures mp.moduleIdentifier.name in repo && instantiated ==>
      (GetScope(mp, repo, instantiated).Success? <==>
       |FormalGenerics(repo[mp.moduleIdentifier.name].moduleParams)| == |mp.actualGenerics|)
    ensures GetScope(mp, repo, instantiated).Success? && instantiated ==>
      var s := GetScope(mp, repo, instantiated).value;
      s.InstantiatedScope? && s.base == repo[mp.moduleIdentifier.name]
      && s.genericInstantiations == GenericInstantiations(s.base, mp.actualGenerics).value
      && s.instantiatingFacility == mp.instantiatingFacility
  {
  }
}
