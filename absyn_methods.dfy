/**
 * The step-by-step code of the prover terms: the hash loops, the `equals`
 * loops, the conjunct accumulator, the substitution loops, the lazily
 * filled caches and the two builders. Each is proved against the functions
 * of the modules it imports.
 */
module TermMethods {
  import opened Wrappers
  import opened JavaLang
  import opened MathTypes
  import opened Terms
  import opened HashFacts
  import opened Equality
  import opened SubstMaps
  import opened Substitution
  import opened Queries

  /**
   * The argument loop of both `calculateHashes`: from `start`, add each
   * hash times its multiplier (2, 3, …) in `int` arithmetic.
   */
  method HashArguments(start: int, hs: seq<int>) returns (h: int)
    requires IsInt32(start)
    ensures h == Wrap(start + WeightedSum(hs, 2))
  {
    h := start;
    var argMod := 2;
    var i := 0;
    while i < |hs|
      invariant 0 <= i <= |hs| && argMod == 2 + i
      invariant IsInt32(h)
      invariant ArgFold(h, hs[i..], argMod) == ArgFold(start, hs, 2)
    {
      assert hs[i..][1..] == hs[i + 1..];
      h := Wrap(h + hs[i] * argMod);
      argMod := argMod + 1;
      i := i + 1;
    }
    ArgFoldIsWeightedSum(start, hs, 2);
  }

  /**
   * `PSymbol.calculateHashes(left, right, args)`: structure hash 0 without
   * arguments, else 17 + Σ argᵢ.structureHash·(i+2); value hash
   * hash(left)·59 + hash(right) + Σ argᵢ.valueHash·(i+2); modulo 2³².
   */
  method CalculateSymbolHashes(left: string, right: string, args: seq<PExp>)
    returns (structureHash: int, valueHash: int)
    ensures structureHash == if |args| == 0 then 0 else Wrap(17 + WeightedSum(ChildStructureHashes(args), 2))
    ensures valueHash == Wrap(StringHash(left) * 59 + StringHash(right) + WeightedSum(ChildValueHashes(args), 2))
  {
    structureHash, valueHash := CombineSymbolHashes(StringHash(left), StringHash(right), ChildStructureHashes(args), ChildValueHashes(args));
  }

  /** The arithmetic of `PSymbol.calculateHashes`, on the hashes of the two print names and of the arguments. */
  method CombineSymbolHashes(leftHashCode: int, rightHashCode: int, structureHashes: seq<int>, valueHashes: seq<int>)
    returns (structureHash: int, valueHash: int)
    ensures structureHash == if |structureHashes| == 0 then 0 else Wrap(17 + WeightedSum(structureHashes, 2))
    ensures valueHash == Wrap(leftHashCode * 59 + rightHashCode + WeightedSum(valueHashes, 2))
  {
    valueHash := leftHashCode;
    valueHash := Wrap(valueHash * 59);
    valueHash := Wrap(valueHash + rightHashCode);
    if |structureHashes| > 0 {
      structureHash := HashArguments(17, structureHashes);
    } else {
      structureHash := 0;
    }
    SymbolValueHashSteps(leftHashCode, rightHashCode, WeightedSum(valueHashes, 2));
    valueHash := HashArguments(valueHash, valueHashes);
  }

  /** `PApply.calculateHashes(functionPortion, args)`: the value hash starts at the function portion's. */
  method CalculateApplyHashes(fn: PExp, args: seq<PExp>) returns (structureHash: int, valueHash: int)
    ensures structureHash == if |args| == 0 then 0 else Wrap(17 + WeightedSum(ChildStructureHashes(args), 2))
    ensures valueHash == Wrap(ValueHash(fn) + WeightedSum(ChildValueHashes(args), 2))
  {
    structureHash := 0;
    valueHash := ValueHash(fn);
    if |args| > 0 {
      structureHash := HashArguments(17, ChildStructureHashes(args));
      valueHash := HashArguments(valueHash, ChildValueHashes(args));
    }
  }

  /** The hashes the loops compute are the ones every symbol and application carries. */
  lemma LoopHashesAreTermHashes(e: PExp)
    requires e.PSymbol? || e.PApply?
    ensures e.PSymbol? ==> StructureHash(e) == (if |e.args| == 0 then 0 else Wrap(17 + WeightedSum(ChildStructureHashes(e.args), 2)))
    ensures e.PSymbol? ==> ValueHash(e) == Wrap(StringHash(e.lprint) * 59 + StringHash(e.rprint) + WeightedSum(ChildValueHashes(e.args), 2))
    ensures e.PApply? ==> StructureHash(e) == (if |e.args| == 0 then 0 else Wrap(17 + WeightedSum(ChildStructureHashes(e.args), 2)))
    ensures e.PApply? ==> ValueHash(e) == Wrap(ValueHash(e.fn) + WeightedSum(ChildValueHashes(e.args), 2))
  {
    if e.PSymbol? { SymbolHashes(e); } else { ApplyHashes(e); }
  }

  /**
   * `equals`, as the classes write it: see the three loops below; the
   * quantified node compares its assertion with the whole other term.
   */
  method Equals(a: PExp, o: PExp) returns (result: bool)
    ensures result == JEquals(a, o)
    decreases Depth(a) + Depth(o), 2
  {
    match a
    case PSymbol(_, _, _, _, _, _, _, _, _, _, _) =>
      result := SymbolEquals(a, o);
    case PApply(_, _, _, _, _, _) =>
      result := ApplyEquals(a, o);
    case PSegments(_, _) =>
      result := SegmentsEquals(a, o);
    case PQuantified(assertion, _, _) =>
      DepthOfChildren(a);
      result := o.PQuantified?;
      if result {
        result := Equals(assertion, o);
      }
    case PLambda(_, _, _, _) =>
      result := a == o;
  }

  /** `PSymbol.equals`: hash, name, flags and qualifier, then both argument lists walked together. */
  method SymbolEquals(a: PExp, o: PExp) returns (result: bool)
    requires a.PSymbol?
    ensures result == JEquals(a, o)
    decreases Depth(a) + Depth(o), 1
  {
    DepthOfChildren(a);
    DepthOfChildren(o);
    result := o.PSymbol?;
    if result {
      result := ValueHash(o) == ValueHash(a) && a.name == o.name && a.literal == o.literal
        && a.incoming == o.incoming && a.qualifier == o.qualifier;
      if result {
        result := ArgumentsEqual(a.args, o.args, Depth(a), Depth(o));
      }
    }
  }

  /** `PApply.equals`: hash and function portion, then both argument lists walked together. */
  method ApplyEquals(a: PExp, o: PExp) returns (result: bool)
    requires a.PApply?
    ensures result == JEquals(a, o)
    decreases Depth(a) + Depth(o), 1
  {
    DepthOfChildren(a);
    DepthOfChildren(o);
    result := o.PApply?;
    if result {
      result := ValueHash(o) == ValueHash(a);
      if result {
        result := Equals(a.fn, o.fn);
      }
      if result {
        result := ArgumentsEqual(a.args, o.args, Depth(a), Depth(o));
      }
    }
  }

  /** The iterator walk: equal while both lists have elements, then both must be exhausted. */
  method ArgumentsEqual(xs: seq<PExp>, ys: seq<PExp>, bx: nat, by': nat) returns (result: bool)
    requires forall i :: 0 <= i < |xs| ==> Depth(xs[i]) < bx
    requires forall i :: 0 <= i < |ys| ==> Depth(ys[i]) < by'
    ensures result == PairwiseEqual(xs, ys, bx, by')
    decreases bx + by', 0
  {
    result := true;
    var i := 0;
    while result && i < |xs| && i < |ys|
      invariant 0 <= i <= |xs| && i <= |ys|
      invariant result <==> forall j :: 0 <= j < i ==> JEquals(xs[j], ys[j])
    {
      result := Equals(xs[i], ys[i]);
      i := i + 1;
    }
    if result {
      result := !(i < |xs| || i < |ys|);
    }
  }

  /** `PSegments.equals`: counts must agree, then the other term's segments are the receivers. */
  method SegmentsEquals(a: PExp, o: PExp) returns (result: bool)
    requires a.PSegments?
    ensures result == JEquals(a, o)
    decreases Depth(a) + Depth(o), 1
  {
    DepthOfChildren(a);
    DepthOfChildren(o);
    result := o.PSegments?;
    if result {
      if |o.segs| != |a.segs| {
        result := false;
      }
      var i := 0;
      while result && i < |o.segs| && i < |a.segs|
        invariant 0 <= i <= |o.segs| && i <= |a.segs|
        invariant result <==> |o.segs| == |a.segs| && forall j :: 0 <= j < i ==> JEquals(o.segs[j], a.segs[j])
      {
        result := Equals(o.segs[i], a.segs[i]);
        i := i + 1;
      }
    }
  }

  /** The protected `splitIntoConjuncts(accumulator)`: appends this term's conjuncts to `acc`. */
  method SplitIntoAccumulator(e: PExp, acc: seq<PExp>) returns (r: seq<PExp>)
    ensures r == acc + Conjuncts(e)
  {
    if SplitsAsConjunction(e) {
      var left := SplitIntoAccumulator(e.args[0], acc);
      r := SplitIntoAccumulator(e.args[1], left);
      assert acc + Conjuncts(e) == acc + Conjuncts(e.args[0]) + Conjuncts(e.args[1]);
    } else if e.PSegments? {
      r := acc;
    } else {
      r := acc + [e];
    }
  }

  /** `splitIntoConjuncts()`: a fresh list filled only by the accumulator. */
  method SplitIntoConjuncts(e: PExp) returns (r: seq<PExp>)
    ensures r == Conjuncts(e)
  {
    r := SplitIntoAccumulator(e, []);
  }

  /** The argument loop of `PSymbol.substitute`: each argument substituted, in order. */
  method SubstituteArguments(args: seq<PExp>, m: SubstMap) returns (newArgs: seq<PExp>)
    ensures newArgs == seq(|args|, i requires 0 <= i < |args| => Substitute(args[i], m))
  {
    ghost var subs := seq(|args|, i requires 0 <= i < |args| => Substitute(args[i], m));
    newArgs := [];
    var i := 0;
    while i < |args|
      invariant 0 <= i <= |args| && newArgs == subs[..i]
    {
      var mm := Substitute(args[i], m);
      assert mm == subs[i];
      newArgs := newArgs + [mm];
      assert subs[..i + 1] == subs[..i] + [subs[i]];
      i := i + 1;
    }
    assert subs[..|args|] == subs;
  }

  /** The segment loop of `PSegments.substitute`: a segment that comes back as segments is spliced in. */
  method SubstituteSegments(segs: seq<PExp>, m: SubstMap) returns (newSegments: seq<PExp>)
    ensures newSegments == Flatten(seq(|segs|, i requires 0 <= i < |segs| => Substitute(segs[i], m)))
  {
    ghost var subs := seq(|segs|, i requires 0 <= i < |segs| => Substitute(segs[i], m));
    newSegments := [];
    var i := 0;
    while i < |segs|
      invariant 0 <= i <= |segs|
      invariant newSegments + Flatten(subs[i..]) == Flatten(subs)
    {
      var x1 := Substitute(segs[i], m);
      assert x1 == subs[i];
      newSegments := AppendPiece(newSegments, x1, subs[i..]);
      assert subs[i..][1..] == subs[i + 1..];
      i := i + 1;
    }
  }

  /** One step of the segment loop: `x1` itself, or its segments when it is a `PSegments`. */
  method AppendPiece(acc: seq<PExp>, x1: PExp, ghost rest: seq<PExp>) returns (r: seq<PExp>)
    requires |rest| > 0 && rest[0] == x1
    ensures r + Flatten(rest[1..]) == acc + Flatten(rest)
  {
    assert Flatten(rest) == (if x1.PSegments? then x1.segs else [x1]) + Flatten(rest[1..]);
    r := acc;
    if x1.PSegments? {
      var k := 0;
      while k < |x1.segs|
        invariant 0 <= k <= |x1.segs|
        invariant r + x1.segs[k..] == acc + x1.segs
      {
        r := r + [x1.segs[k]];
        assert x1.segs[k..] == [x1.segs[k]] + x1.segs[k + 1..];
        k := k + 1;
      }
      assert x1.segs[k..] == [];
      assert r == acc + x1.segs;
    } else {
      r := r + [x1];
    }
    assert r + Flatten(rest[1..]) == acc + ((if x1.PSegments? then x1.segs else [x1]) + Flatten(rest[1..]));
  }

  /** `substitute(currents, repl)`: puts every current to `repl`, then substitutes. */
  method SubstituteAllWith(e: PExp, currents: seq<PExp>, repl: PExp) returns (r: PExp)
    ensures r == Substitute(e, FillMap([], currents, repl))
  {
    var substitutions: SubstMap := [];
    var i := 0;
    while i < |currents|
      invariant 0 <= i <= |currents|
      invariant FillMap(substitutions, currents[i..], repl) == FillMap([], currents, repl)
    {
      assert currents[i..][1..] == currents[i + 1..];
      substitutions := Put(substitutions, currents[i], repl);
      i := i + 1;
    }
    r := Substitute(e, substitutions);
  }

  /** `substitute(currents, repls)`: refuses lists of different lengths, else zips them and substitutes. */
  method SubstituteLists(e: PExp, currents: seq<PExp>, repls: seq<PExp>) returns (r: Result<PExp>)
    ensures r == SubstituteZip(e, currents, repls)
  {
    if |currents| != |repls| {
      return Error(IllegalArgument("substitution lists must be the same length"));
    }
    var substitutions: SubstMap := [];
    var i := 0;
    while i < |currents|
      invariant 0 <= i <= |currents|
      invariant ZipMap(substitutions, currents[i..], repls[i..]) == ZipMap([], currents, repls)
    {
      assert currents[i..][1..] == currents[i + 1..];
      assert repls[i..][1..] == repls[i + 1..];
      substitutions := Put(substitutions, currents[i], repls[i]);
      i := i + 1;
    }
    r := Success(Substitute(e, substitutions));
  }

  /**
   * The lazily computed getters of `PExp`: each result is computed on the
   * first call and the stored one is returned on every later call.
   * `getFreeVariablesNoCache` is not part of this model, so the free
   * variables come from a function the cache is given.
   */
  class PExpCache {
    const exp: PExp
    const freeVariablesOf: PExp -> set<PExp>
    var cachedQuantifiedVariables: Option<set<PExp>>
    var cachedIncomingVariables: Option<set<PExp>>
    var cachedFunctionApplications: Option<seq<PExp>>
    var cachedFreeVariables: Option<set<PExp>>

    /** Whatever is cached is what the uncached computation gives. */
    ghost predicate Valid()
      reads this
    {
      && (cachedQuantifiedVariables.Some? ==> cachedQuantifiedVariables.value == QuantifiedVariables(exp))
      && (cachedIncomingVariables.Some? ==> cachedIncomingVariables.value == IncomingVariables(exp))
      && (cachedFunctionApplications.Some? ==> cachedFunctionApplications.value == FunctionApplications(exp))
      && (cachedFreeVariables.Some? ==> cachedFreeVariables.value == freeVariablesOf(exp))
    }

    constructor(e: PExp, freeVariables: PExp -> set<PExp>)
      ensures Valid() && exp == e && freeVariablesOf == freeVariables
      ensures cachedQuantifiedVariables.None? && cachedIncomingVariables.None?
      ensures cachedFunctionApplications.None? && cachedFreeVariables.None?
    {
      exp := e;
      freeVariablesOf := freeVariables;
      cachedQuantifiedVariables := None;
      cachedIncomingVariables := None;
      cachedFunctionApplications := None;
      cachedFreeVariables := None;
    }

    method GetQuantifiedVariables() returns (r: set<PExp>)
      requires Valid()
      modifies this`cachedQuantifiedVariables
      ensures Valid()
      ensures r == QuantifiedVariables(exp) && cachedQuantifiedVariables == Some(r)
      ensures old(cachedQuantifiedVariables).Some? ==> r == old(cachedQuantifiedVariables).value
    {
      if cachedQuantifiedVariables.None? {
        cachedQuantifiedVariables := Some(QuantifiedVariables(exp));
      }
      r := cachedQuantifiedVariables.value;
    }

    method GetIncomingVariables() returns (r: set<PExp>)
      requires Valid()
      modifies this`cachedIncomingVariables
      ensures Valid()
      ensures r == IncomingVariables(exp) && cachedIncomingVariables == Some(r)
      ensures old(cachedIncomingVariables).Some? ==> r == old(cachedIncomingVariables).value
    {
      if cachedIncomingVariables.None? {
        cachedIncomingVariables := Some(IncomingVariables(exp));
      }
      r := cachedIncomingVariables.value;
    }

    method GetFunctionApplications() returns (r: seq<PExp>)
      requires Valid()
      modifies this`cachedFunctionApplications
      ensures Valid()
      ensures r == FunctionApplications(exp) && cachedFunctionApplications == Some(r)
      ensures old(cachedFunctionApplications).Some? ==> r == old(cachedFunctionApplications).value
    {
      if cachedFunctionApplications.None? {
        cachedFunctionApplications := Some(FunctionApplications(exp));
      }
      r := cachedFunctionApplications.value;
    }

    method GetFreeVariables() returns (r: set<PExp>)
      requires Valid()
      modifies this`cachedFreeVariables
      ensures Valid()
      ensures r == freeVariablesOf(exp) && cachedFreeVariables == Some(r)
      ensures old(cachedFreeVariables).Some? ==> r == old(cachedFreeVariables).value
    {
      if cachedFreeVariables.None? {
        cachedFreeVariables := Some(freeVariablesOf(exp));
      }
      r := cachedFreeVariables.value;
    }
  }

  /** Two calls of a cached getter return the same set. */
  method QuantifiedVariablesTwice(c: PExpCache) returns (first: set<PExp>, second: set<PExp>)
    requires c.Valid()
    modifies c
    ensures first == second == QuantifiedVariables(c.exp)
  {
    first := c.GetQuantifiedVariables();
    second := c.GetQuantifiedVariables();
  }

  /** The names a `PSymbolBuilder` is created with. */
  datatype SymbolNaming = SymbolNaming(name: string, lprint: Option<string>, rprint: string)

  /**
   * The `PSymbolBuilder(lprint, rprint)` constructor's choice of names: both
   * missing is an error; a missing right print copies the left one and the
   * name is the left print; otherwise the name is lprint + "..." + rprint
   * (Java prints a missing left print as "null").
   */
  function SymbolBuilderNaming(lprint: Option<string>, rprint: Option<string>): (r: Result<SymbolNaming>)
    ensures r.Error? <==> lprint.None? && rprint.None?
    ensures r.Error? ==> r.error.IllegalState?
    ensures r.Success? && rprint.None? ==> r.value == SymbolNaming(lprint.value, lprint, lprint.value)
    ensures r.Success? && rprint.Some? ==> r.value.rprint == rprint.value && r.value.lprint == lprint
    ensures r.Success? && rprint.Some? && lprint.Some? ==> r.value.name == lprint.value + "..." + rprint.value
  {
    if rprint.None? then
      if lprint.None? then Error(IllegalState("null name; all psymbols must be named."))
      else Success(SymbolNaming(lprint.value, lprint, lprint.value))
    else
      Success(SymbolNaming((if lprint.None? then "null" else lprint.value) + "..." + rprint.value, lprint, rprint.value))
  }

  /** `PSymbol.PSymbolBuilder`: the fields a symbol is built from. */
  class PSymbolBuilder {
    const name: string
    const lprint: Option<string>
    const rprint: string
    var qualifier: Option<string>
    var incoming: bool
    var literal: bool
    var style: SymbolStyle
    var quantification: Quantification
    var mathType: Option<MathType>
    var mathTypeValue: Option<MathType>
    var arguments: seq<PExp>

    constructor(naming: SymbolNaming)
      ensures name == naming.name && lprint == naming.lprint && rprint == naming.rprint
      ensures qualifier.None? && !incoming && !literal && style == SPrefix && quantification == QNone
      ensures mathType.None? && mathTypeValue.None? && arguments == []
    {
      name := naming.name;
      lprint := naming.lprint;
      rprint := naming.rprint;
      qualifier := None;
      incoming := false;
      literal := false;
      style := SPrefix;
      quantification := QNone;
      mathType := None;
      mathTypeValue := None;
      arguments := [];
    }

    method SetQualifier(q: Option<string>)
      modifies this`qualifier
      ensures qualifier == q
    {
      qualifier := q;
    }

    method SetLiteral(b: bool)
      modifies this`literal
      ensures literal == b
    {
      literal := b;
    }

    method SetMathType(t: Option<MathType>)
      modifies this`mathType
      ensures mathType == t
    {
      mathType := t;
    }

    method SetMathTypeValue(t: Option<MathType>)
      modifies this`mathTypeValue
      ensures mathTypeValue == t
    {
      mathTypeValue := t;
    }

    /** `quantification(q)`: a null quantification means NONE. */
    method SetQuantification(q: Option<Quantification>)
      modifies this`quantification
      ensures quantification == if q.None? then QNone else q.value
    {
      quantification := if q.None? then QNone else q.value;
    }

    method SetStyle(s: SymbolStyle)
      modifies this`style
      ensures style == s
    {
      style := s;
    }

    method SetIncoming(b: bool)
      modifies this`incoming
      ensures incoming == b
    {
      incoming := b;
    }

    /** `arguments(args)`: appends, keeping the order. */
    method AddArguments(args: seq<PExp>)
      modifies this`arguments
      ensures arguments == old(arguments) + args
    {
      arguments := arguments + args;
    }

    /**
     * `build()`: refuses a missing math type; a missing left print makes the
     * hash computation fail on a null string.
     */
    method Build() returns (r: Result<PExp>)
      ensures r.Error? <==> mathType.None? || lprint.None?
      ensures mathType.None? ==> r == Error(IllegalState("mathtype == null; cannot build PExp with null mathtype"))
      ensures r.Success? ==> r.value == PSymbol(name, lprint.value, rprint, qualifier, arguments, literal, incoming,
                                                quantification, style, mathType.value, mathTypeValue)
    {
      if mathType.None? {
        return Error(IllegalState("mathtype == null; cannot build PExp with null mathtype"));
      }
      if lprint.None? {
        return Error(NullPointer);
      }
      r := Success(PSymbol(name, lprint.value, rprint, qualifier, arguments, literal, incoming,
                           quantification, style, mathType.value, mathTypeValue));
    }
  }

  /** A symbol whose prints are its name is rebuilt exactly by a builder given its name and fields. */
  method RebuildSymbol(e: PExp) returns (r: Result<PExp>)
    requires e.PSymbol? && e.lprint == e.name && e.rprint == e.name
    ensures r == Success(e)
  {
    var naming := SymbolBuilderNaming(Some(e.name), None);
    var b := new PSymbolBuilder(naming.value);
    b.SetQualifier(e.qualifier);
    b.SetLiteral(e.literal);
    b.SetIncoming(e.incoming);
    b.SetStyle(e.style);
    b.SetQuantification(Some(e.quant));
    b.SetMathType(Some(e.mathType));
    b.SetMathTypeValue(e.mathTypeValue);
    b.AddArguments(e.args);
    assert b.name == e.name && b.lprint == Some(e.name) && b.rprint == e.name;
    assert b.arguments == e.args && b.quantification == e.quant;
    r := b.Build();
  }

  /** `PApply.PApplyBuilder`. */
  class PApplyBuilder {
    const functionPortion: PExp
    var arguments: seq<PExp>
    var vcInfo: VCInfo
    var applicationType: Option<MathType>
    var displayStyle: ApplyStyle
    var bracketApp: bool

    constructor(fn: PExp)
      ensures functionPortion == fn && arguments == [] && vcInfo == VCInfo(None, None)
      ensures applicationType.None? && displayStyle == APrefix && !bracketApp
    {
      functionPortion := fn;
      arguments := [];
      vcInfo := VCInfo(None, None);
      applicationType := None;
      displayStyle := APrefix;
      bracketApp := false;
    }

    /** The copying constructor: every field of the existing application. */
    constructor FromApply(e: PExp)
      requires e.PApply?
      ensures functionPortion == e.fn && arguments == e.args && vcInfo == e.vcInfo
      ensures applicationType == Some(e.appType) && displayStyle == e.appStyle && bracketApp == e.bracket
    {
      functionPortion := e.fn;
      arguments := e.args;
      vcInfo := e.vcInfo;
      applicationType := Some(e.appType);
      displayStyle := e.appStyle;
      bracketApp := e.bracket;
    }

    /** `style(s)` is `style(s, false)`. */
    method SetStyle(s: ApplyStyle, isBracketBasedApp: bool)
      modifies this`displayStyle, this`bracketApp
      ensures displayStyle == s && bracketApp == isBracketBasedApp
    {
      displayStyle := s;
      bracketApp := isBracketBasedApp;
    }

    method SetApplicationType(t: Option<MathType>)
      modifies this`applicationType
      ensures applicationType == t
    {
      applicationType := t;
    }

    method SetVCInfo(info: VCInfo)
      modifies this`vcInfo
      ensures vcInfo == info
    {
      vcInfo := info;
    }

    method AddArguments(args: seq<PExp>)
      modifies this`arguments
      ensures arguments == old(arguments) + args
    {
      arguments := arguments + args;
    }

    /** `build()`: refuses a missing application type. */
    method Build() returns (r: Result<PExp>)
      ensures r.Error? <==> applicationType.None?
      ensures r.Error? ==> r.error == IllegalState("can't build PApply with mathAppClssfctn==null")
      ensures r.Success? ==> r.value == PApply(functionPortion, arguments, displayStyle, bracketApp, applicationType.value, vcInfo)
    {
      if applicationType.None? {
        return Error(IllegalState("can't build PApply with mathAppClssfctn==null"));
      }
      r := Success(PApply(functionPortion, arguments, displayStyle, bracketApp, applicationType.value, vcInfo));
    }
  }

  /** Copying an application into a builder and building again gives the same application. */
  method RebuildApply(e: PExp) returns (r: Result<PExp>)
    requires e.PApply?
    ensures r == Success(e)
  {
    var b := new PApplyBuilder.FromApply(e);
    r := b.Build();
  }
}
