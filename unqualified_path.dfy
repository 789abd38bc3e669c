/**
 * `UnqualifiedPath`: the search path for a name used without a qualifier.
 * The local scope is searched first; facilities must not be searched; then,
 * when asked for, the imports of the module, depth first, each with the
 * cascaded import strategy, stopping at the first import whose search says
 * it is finished. The results list and the set of searched scopes are shared
 * by the whole search and grow in place.
 */
module UnqualifiedPaths {
  import opened Wrappers

  datatype ImportStrategy = ImportNone | ImportNamed | ImportOther(strategyName: string)
  datatype FacilityStrategy = FacilityIgnore | FacilityInstantiate | FacilityGeneric

  /** A scope of the symbol table, by identity; a syntactic scope belongs to a module. */
  datatype SearchScope = SearchScope(scopeId: nat, isSyntactic: bool, moduleId: string)

  /** A module's scope as the table holds it, and the names of the modules it imports, in order. */
  datatype ModuleEntry = ModuleEntry(scope: SearchScope, imports: seq<string>)

  /** How far a search has got: whether it is finished, the matches so far and the scopes searched. */
  datatype SearchOutcome<E> = SearchOutcome(finished: bool, results: seq<E>, searched: set<nat>)

  /**
   * `Scope.addMatches`, which is not part of this model: given a scope and
   * the search so far, the search after looking in that scope alone, or the
   * error it throws (a `DuplicateSymbolException`, say).
   */
  type LocalSearch<!E> = (SearchScope, seq<E>, set<nat>) -> Result<SearchOutcome<E>>

  /** A local search that only ever adds: it keeps the results so far as a prefix and the searched scopes. */
  ghost predicate OnlyExtends<E(!new)>(addMatches: LocalSearch<E>) {
    forall source, results, searched :: addMatches(source, results, searched).Success? ==>
      results <= addMatches(source, results, searched).value.results
      && searched <= addMatches(source, results, searched).value.searched
  }

  /** A local search that records the scope it looked in among the searched scopes. */
  ghost predicate RecordsScope<E(!new)>(addMatches: LocalSearch<E>) {
    forall source, results, searched :: addMatches(source, results, searched).Success? ==>
      source.scopeId in addMatches(source, results, searched).value.searched
  }

  /**
   * What a search is run against: the searcher's local search, the module
   * table, the path's facility strategy and local priority, and
   * `cascadingStrategy`, which is not part of this model either.
   */
  datatype SearchContext<!E> = SearchContext(
    addMatches: LocalSearch<E>,
    repo: map<string, ModuleEntry>,
    facilityStrategy: FacilityStrategy,
    localPriority: bool,
    cascade: ImportStrategy -> ImportStrategy)

  const FACILITY_SEARCH_MESSAGE: string :=
    "searching for unqualified symbols using 'facility generic' or 'facility instantiate' "
    + "is not currently permitted by the compiler. It"
    + "could be easily added, though for code generation reasons"
    + "we currently are disallowing this; thus,"
    + "resolve programmers must  explicitly qualify any "
    + "facility-bound symbols"

  /** After the local search: whether the imports are to be searched at all. */
  predicate SearchesImports<E>(ctx: SearchContext<E>, local: SearchOutcome<E>, source: SearchScope, strategy: ImportStrategy) {
    (|local.results| == 0 || !ctx.localPriority) && source.isSyntactic && strategy != ImportNone
  }

  /**
   * `searchModule`, on values. `fuel` bounds the depth of the recursion
   * through imports. An error of the local search is passed on unchanged,
   * and a search built on a local search that only adds only adds too.
   */
  function SearchModule<E(!new)>(ctx: SearchContext<E>, fuel: nat, source: SearchScope, results: seq<E>, searched: set<nat>,
                           strategy: ImportStrategy, depth: nat): (r: Result<SearchOutcome<E>>)
    ensures fuel > 0 && ctx.addMatches(source, results, searched).Error? ==>
      r == Error(ctx.addMatches(source, results, searched).error)
    ensures OnlyExtends(ctx.addMatches) && r.Success? ==> results <= r.value.results && searched <= r.value.searched
    ensures OnlyExtends(ctx.addMatches) && RecordsScope(ctx.addMatches) && r.Success? ==> source.scopeId in r.value.searched
    decreases fuel, 1
  {
    if fuel == 0 then Error(OutOfFuel)
    else
      var local :- ctx.addMatches(source, results, searched);
      if !local.finished && ctx.facilityStrategy != FacilityIgnore then Error(UnsupportedOperation(FACILITY_SEARCH_MESSAGE))
      else if !SearchesImports(ctx, local, source, strategy) then Success(local)
      else if source.moduleId !in ctx.repo then Error(Runtime("NoSuchSymbolException"))
      else SearchImports(ctx, fuel - 1, ctx.repo[source.moduleId].imports, local, ctx.cascade(strategy), depth + 1)
  }

  /**
   * The loop over the imports: each searched in turn, until one reports it
   * is finished. A missing import is the wrapped NoSuchSymbolException.
   */
  function SearchImports<E(!new)>(ctx: SearchContext<E>, fuel: nat, imports: seq<string>, acc: SearchOutcome<E>,
                            strategy: ImportStrategy, depth: nat): (r: Result<SearchOutcome<E>>)
    ensures |imports| > 0 && imports[0] !in ctx.repo ==> r == Error(Runtime("NoSuchSymbolException"))
    ensures OnlyExtends(ctx.addMatches) && r.Success? ==> acc.results <= r.value.results && acc.searched <= r.value.searched
    ensures OnlyExtends(ctx.addMatches) && RecordsScope(ctx.addMatches) && r.Success? && |imports| > 0 ==>
      imports[0] in ctx.repo && ctx.repo[imports[0]].scope.scopeId in r.value.searched
    decreases fuel, 2, |imports|
  {
    if |imports| == 0 then Success(acc)
    else if imports[0] !in ctx.repo then Error(Runtime("NoSuchSymbolException"))
    else
      var r := SearchModule(ctx, fuel, ctx.repo[imports[0]].scope, acc.results, acc.searched, strategy, depth);
      if r.Error? || r.value.finished then r
      else SearchImports(ctx, fuel, imports[1..], r.value, strategy, depth)
  }

  /** `searchFromContext`, on values: no results, nothing searched, depth 0 and the path's own strategy. */
  function SearchFromContext<E(!new)>(ctx: SearchContext<E>, fuel: nat, source: SearchScope, strategy: ImportStrategy): Result<seq<E>>
  {
    var r := SearchModule(ctx, fuel, source, [], {}, strategy, 0);
    if r.Error? then Error(r.error) else Success(r.value.results)
  }

  /** The results list and searched-scope set one search shares across its recursion. */
  class SearchState<E> {
    var results: seq<E>
    var searched: set<nat>

    constructor()
      ensures results == [] && searched == {}
    {
      results := [];
      searched := {};
    }
  }

  /** `UnqualifiedPath`: its three settings. */
  class UnqualifiedPath {
    const importStrategy: ImportStrategy
    const facilityStrategy: FacilityStrategy
    const localPriority: bool

    constructor(imports: ImportStrategy, facilities: FacilityStrategy, localPriority: bool)
      ensures importStrategy == imports && facilityStrategy == facilities && this.localPriority == localPriority
    {
      importStrategy := imports;
      facilityStrategy := facilities;
      this.localPriority := localPriority;
    }

    /** The context this path searches in, given the searcher and the table. */
    function ContextFor<E>(addMatches: LocalSearch<E>, repo: map<string, ModuleEntry>, cascade: ImportStrategy -> ImportStrategy): SearchContext<E> {
      SearchContext(addMatches, repo, facilityStrategy, localPriority, cascade)
    }

    /** `searchFromContext`: a fresh state, then one search from the source. */
    method SearchFromContextM<E(!new)>(addMatches: LocalSearch<E>, repo: map<string, ModuleEntry>, cascade: ImportStrategy -> ImportStrategy,
                                fuel: nat, source: SearchScope) returns (r: Result<seq<E>>)
      ensures r == SearchFromContext(ContextFor(addMatches, repo, cascade), fuel, source, importStrategy)
    {
      var state := new SearchState<E>();
      var finished := SearchModuleM(addMatches, repo, cascade, fuel, source, state, importStrategy, 0);
      if finished.Error? {
        return Error(finished.error);
      }
      r := Success(state.results);
    }

    /**
     * `searchModule`: the local search writes into the shared state, and so
     * does each import's search; an error leaves the state as far as it got.
     */
    method SearchModuleM<E(!new)>(addMatches: LocalSearch<E>, repo: map<string, ModuleEntry>, cascade: ImportStrategy -> ImportStrategy,
                            fuel: nat, source: SearchScope, state: SearchState<E>, strategy: ImportStrategy, depth: nat)
      returns (r: Result<bool>)
      modifies state
      decreases fuel
      ensures var spec := SearchModule(ContextFor(addMatches, repo, cascade), fuel, source, old(state.results), old(state.searched), strategy, depth);
        && (spec.Error? ==> r == Error(spec.error))
        && (spec.Success? ==> r == Success(spec.value.finished) && state.results == spec.value.results && state.searched == spec.value.searched)
    {
      ghost var ctx := ContextFor(addMatches, repo, cascade);
      if fuel == 0 {
        return Error(OutOfFuel);
      }
      var matched := addMatches(source, state.results, state.searched);
      if matched.Error? {
        return Error(matched.error);
      }
      var local := matched.value;
      state.results := local.results;
      state.searched := local.searched;
      var finished := local.finished;
      if !finished && facilityStrategy != FacilityIgnore {
        return Error(UnsupportedOperation(FACILITY_SEARCH_MESSAGE));
      }
      if (|state.results| == 0 || !localPriority) && source.isSyntactic && strategy != ImportNone {
        if source.moduleId !in repo {
          return Error(Runtime("NoSuchSymbolException"));
        }
        var imports := repo[source.moduleId].imports;
        var cascaded := cascade(strategy);
        var i := 0;
        while i < |imports|
          invariant 0 <= i <= |imports|
          invariant SearchImports(ctx, fuel - 1, imports, local, cascaded, depth + 1)
                 == SearchImports(ctx, fuel - 1, imports[i..], SearchOutcome(finished, state.results, state.searched), cascaded, depth + 1)
          decreases |imports| - i
        {
          assert imports[i..][0] == imports[i] && imports[i..][1..] == imports[i + 1..];
          if imports[i] !in repo {
            return Error(Runtime("NoSuchSymbolException"));
          }
          var sub := SearchModuleM(addMatches, repo, cascade, fuel - 1, repo[imports[i]].scope, state, cascaded, depth + 1);
          if sub.Error? {
            return Error(sub.error);
          }
          finished := sub.value;
          if finished {
            break;
          }
          i := i + 1;
        }
        assert i == |imports| ==> imports[i..] == [];
      }
      r := Success(finished);
    }
  }
}

module UnqualifiedPathFacts {
  import opened Wrappers
  import opened UnqualifiedPaths

  /** The local scope comes first: the search goes on from what the local search of the source gives. */
  lemma LocalFirst<E(!new)>(ctx: SearchContext<E>, fuel: nat, source: SearchScope, results: seq<E>, searched: set<nat>,
                            strategy: ImportStrategy, depth: nat)
    requires fuel > 0
    ensures var local := ctx.addMatches(source, results, searched);
      local.Success? && (local.value.finished || ctx.facilityStrategy == FacilityIgnore)
      && !SearchesImports(ctx, local.value, source, strategy) ==>
        SearchModule(ctx, fuel, source, results, searched, strategy, depth) == local
  {
  }

  /** An unfinished local search under a facility strategy other than ignoring facilities is refused. */
  lemma FacilitiesRefused<E(!new)>(ctx: SearchContext<E>, fuel: nat, source: SearchScope, results: seq<E>, searched: set<nat>,
                                   strategy: ImportStrategy, depth: nat)
    requires fuel > 0
    requires var local := ctx.addMatches(source, results, searched);
      local.Success? && !local.value.finished && ctx.facilityStrategy != FacilityIgnore
    ensures SearchModule(ctx, fuel, source, results, searched, strategy, depth) == Error(UnsupportedOperation(FACILITY_SEARCH_MESSAGE))
  {
  }

  /**
   * The imports are searched exactly when the local results are empty or
   * local priority is off, the source is syntactic and the strategy is not
   * IMPORT_NONE; the module's imports are then searched with the cascaded
   * strategy one level deeper.
   */
  lemma ImportsWhenAsked<E(!new)>(ctx: SearchContext<E>, fuel: nat, source: SearchScope, results: seq<E>, searched: set<nat>,
                                  strategy: ImportStrategy, depth: nat)
    requires fuel > 0
    requires var local := ctx.addMatches(source, results, searched);
      local.Success? && (local.value.finished || ctx.facilityStrategy == FacilityIgnore)
      && SearchesImports(ctx, local.value, source, strategy)
    requires source.moduleId in ctx.repo
    ensures SearchModule(ctx, fuel, source, results, searched, strategy, depth) ==
      SearchImports(ctx, fuel - 1, ctx.repo[source.moduleId].imports, ctx.addMatches(source, results, searched).value,
                    ctx.cascade(strategy), depth + 1)
  {
  }

  /** With IMPORT_NONE the search never leaves the source scope. */
  lemma ImportNoneIsLocal<E(!new)>(ctx: SearchContext<E>, fuel: nat, source: SearchScope, results: seq<E>, searched: set<nat>, depth: nat)
    requires fuel > 0
    ensures SearchModule(ctx, fuel, source, results, searched, ImportNone, depth).Success? ==>
      SearchModule(ctx, fuel, source, results, searched, ImportNone, depth) == ctx.addMatches(source, results, searched)
  {
  }

  /** Local priority with a local match never searches the imports. */
  lemma LocalPriorityStops<E(!new)>(ctx: SearchContext<E>, fuel: nat, source: SearchScope, results: seq<E>, searched: set<nat>,
                                    strategy: ImportStrategy, depth: nat)
    requires fuel > 0 && ctx.localPriority
    requires var local := ctx.addMatches(source, results, searched);
      local.Success? && |local.value.results| > 0
    ensures SearchModule(ctx, fuel, source, results, searched, strategy, depth).Success? ==>
      SearchModule(ctx, fuel, source, results, searched, strategy, depth) == ctx.addMatches(source, results, searched)
  {
  }

  /** The loop over imports stops at the first import whose search is finished; later imports are not searched. */
  lemma FirstFinishedImportStops<E(!new)>(ctx: SearchContext<E>, fuel: nat, imports: seq<string>, acc: SearchOutcome<E>,
                                          strategy: ImportStrategy, depth: nat, rest: seq<string>)
    requires |imports| > 0 && imports[0] in ctx.repo
    requires var r := SearchModule(ctx, fuel, ctx.repo[imports[0]].scope, acc.results, acc.searched, strategy, depth);
      r.Success? && r.value.finished
    ensures SearchImports(ctx, fuel, imports, acc, strategy, depth) == SearchImports(ctx, fuel, imports[..1] + rest, acc, strategy, depth)
    ensures SearchImports(ctx, fuel, imports, acc, strategy, depth) ==
      SearchModule(ctx, fuel, ctx.repo[imports[0]].scope, acc.results, acc.searched, strategy, depth)
  {
    assert (imports[..1] + rest)[0] == imports[0];
  }

  /**
   * One more import at the end of the list is searched exactly when the
   * earlier ones left the search unfinished (or there were none: the local
   * `finished` flag does not stop the loop), and it goes on from where they
   * left off; an error of the earlier ones is kept.
   */
  lemma {:induction false} ImportsAppend<E(!new)>(ctx: SearchContext<E>, fuel: nat, imports: seq<string>, last: string,
                                                  acc: SearchOutcome<E>, strategy: ImportStrategy, depth: nat)
    ensures SearchImports(ctx, fuel, imports + [last], acc, strategy, depth) ==
      match SearchImports(ctx, fuel, imports, acc, strategy, depth)
      case Error(e) => Error(e)
      case Success(o) =>
        if o.finished && |imports| > 0 then Success(o)
        else if last !in ctx.repo then Error(Runtime("NoSuchSymbolException"))
        else SearchModule(ctx, fuel, ctx.repo[last].scope, o.results, o.searched, strategy, depth)
    decreases |imports|
  {
    if |imports| == 0 {
      assert imports + [last] == [last];
      assert [last][1..] == [];
    } else {
      assert (imports + [last])[0] == imports[0];
      assert (imports + [last])[1..] == imports[1..] + [last];
      if imports[0] in ctx.repo {
        var r := SearchModule(ctx, fuel, ctx.repo[imports[0]].scope, acc.results, acc.searched, strategy, depth);
        if r.Success? && !r.value.finished {
          ImportsAppend(ctx, fuel, imports[1..], last, r.value, strategy, depth);
        }
      }
    }
  }

  /** A search from the context starts with no results, nothing searched and depth 0. */
  lemma FromContextStartsEmpty<E(!new)>(ctx: SearchContext<E>, fuel: nat, source: SearchScope, strategy: ImportStrategy)
    ensures SearchFromContext(ctx, fuel, source, strategy).Success? <==> SearchModule(ctx, fuel, source, [], {}, strategy, 0).Success?
    ensures SearchFromContext(ctx, fuel, source, strategy).Success? ==>
      SearchFromContext(ctx, fuel, source, strategy).value == SearchModule(ctx, fuel, source, [], {}, strategy, 0).value.results
  {
  }
}
