/**
 * `MathSymbol`: a symbol-table entry for a math name, its type, and the type
 * it denotes when it names a type. Deschematizing a function symbol checks
 * the number of arguments against the function's parameter list.
 */
module MathSymbols {
  import opened Wrappers
  import opened MathTypes
  import opened Terms

  datatype MathSymbol = MathSymbol(
    name: string,
    quantification: Quantification,
    symType: MathType,
    typeValue: Option<MathType>)

  /**
   * The constructor: a given type value is kept; otherwise a type known to
   * hold only math types makes the symbol name a proper type of its own,
   * and any other type leaves the symbol without a type value.
   */
  function NewMathSymbol(name: string, q: Quantification, t: MathType, typeValue: Option<MathType>): (r: MathSymbol)
    ensures r.name == name && r.quantification == q && r.symType == t
    ensures typeValue.Some? ==> r.typeValue == typeValue
    ensures typeValue.None? ==> (r.typeValue.Some? <==> IsKnownToContainOnlyMathTypes(t))
  {
    var v := if typeValue.Some? then typeValue
             else if IsKnownToContainOnlyMathTypes(t) then Some(MTProper(Some(t), MembersKnownToContainOnlyMathTypes(t), Some(name)))
             else None;
    MathSymbol(name, q, t, v)
  }

  /** The six-argument constructor: quantification NONE. */
  function NewUnquantifiedMathSymbol(name: string, t: MathType, typeValue: Option<MathType>): (r: MathSymbol)
    ensures r.quantification == QNone
  {
    NewMathSymbol(name, QNone, t, typeValue)
  }

  /** `getTypeValue`: a symbol without one throws `SymbolNotOfKindTypeException`. */
  function GetTypeValue(s: MathSymbol): (r: Result<MathType>)
    ensures r.Error? <==> s.typeValue.None?
    ensures r.Error? ==> r.error == SymbolNotOfKindType
    ensures r.Success? ==> Some(r.value) == s.typeValue
  {
    if s.typeValue.None? then Error(SymbolNotOfKindType) else Success(s.typeValue.value)
  }

  /** The types of a cartesian product's factors, in order. */
  function FactorTypes(elements: seq<Element>): (r: seq<MathType>)
    ensures |r| == |elements|
  {
    seq(|elements|, i requires 0 <= i < |elements| => elements[i].elementType)
  }

  /**
   * `expandAsNeeded`: the parameter types a function domain stands for. A
   * product gives its factors, `Void` gives none, any other type itself.
   */
  function ExpandAsNeeded(t: MathType): seq<MathType> {
    if t.MTCartesian? then FactorTypes(t.elements)
    else if t != VOID then [t]
    else []
  }

  /** `expandAsNeeded` as written: the factors are added one at a time. */
  method ExpandDomain(t: MathType) returns (result: seq<MathType>)
    ensures result == ExpandAsNeeded(t)
  {
    result := [];
    if t.MTCartesian? {
      for i := 0 to |t.elements|
        invariant result == FactorTypes(t.elements[..i])
      {
        assert t.elements[..i + 1][..i] == t.elements[..i];
        result := result + [t.elements[i].elementType];
      }
      assert t.elements[..|t.elements|] == t.elements;
    } else {
      if t != VOID {
        result := result + [t];
      }
    }
  }

  /** The math types of the actual arguments. */
  function ArgumentTypes(args: seq<PExp>): (r: seq<MathType>)
    ensures |r| == |args|
  {
    seq(|args|, i requires 0 <= i < |args| => MathTypeOf(args[i]))
  }

  /**
   * How `MTFunction.deschematize` specializes a function type to the given
   * arguments; that class is not part of this model.
   */
  type Specialization = (MathType, seq<PExp>) -> MathType

  /**
   * `deschematize`: only a function symbol whose parameter list is as long
   * as the argument list has a solution; the result keeps the name and the
   * quantification, takes the specialized type, and gets its type value
   * from the constructor as if none were given.
   */
  function Deschematize(s: MathSymbol, args: seq<PExp>, specialize: Specialization): (r: Result<MathSymbol>)
    ensures r.Error? ==> r.error == NoSolution
  {
    if !s.symType.MTFunction? then Error(NoSolution)
    else if |ExpandAsNeeded(s.symType.domain)| != |ArgumentTypes(args)| then Error(NoSolution)
    else Success(NewMathSymbol(s.name, s.quantification, specialize(s.symType, args), None))
  }
}

module MathSymbolFacts {
  import opened Wrappers
  import opened MathTypes
  import opened Terms
  import opened MathSymbols

  /**
   * A symbol defines a type exactly when it was given a type value or its
   * type holds only math types; in the second case the type it defines is
   * the proper type named after the symbol, whose own type is the symbol's.
   */
  lemma TypeValueOfNewSymbol(name: string, q: Quantification, t: MathType, typeValue: Option<MathType>)
    ensures GetTypeValue(NewMathSymbol(name, q, t, typeValue)).Success? <==>
      typeValue.Some? || IsKnownToContainOnlyMathTypes(t)
    ensures typeValue.None? && IsKnownToContainOnlyMathTypes(t) ==>
      GetTypeValue(NewMathSymbol(name, q, t, typeValue)) == Success(MTProper(Some(t), MembersKnownToContainOnlyMathTypes(t), Some(name)))
    ensures typeValue.Some? ==> GetTypeValue(NewMathSymbol(name, q, t, typeValue)) == Success(typeValue.value)
  {
  }

  /**
   * The number of arguments a function symbol accepts: none for a `Void`
   * domain, one per factor for a product, one for any other domain.
   */
  lemma DeschematizeArity(s: MathSymbol, args: seq<PExp>, specialize: Specialization)
    requires s.symType.MTFunction?
    ensures s.symType.domain == VOID ==> (Deschematize(s, args, specialize).Success? <==> |args| == 0)
    ensures s.symType.domain.MTCartesian? ==>
      (Deschematize(s, args, specialize).Success? <==> |args| == |s.symType.domain.elements|)
    ensures !s.symType.domain.MTCartesian? && s.symType.domain != VOID ==>
      (Deschematize(s, args, specialize).Success? <==> |args| == 1)
  {
  }

  /** Only function symbols can be deschematized. */
  lemma DeschematizeNeedsFunction(s: MathSymbol, args: seq<PExp>, specialize: Specialization)
    requires !s.symType.MTFunction?
    ensures Deschematize(s, args, specialize) == Error(NoSolution)
  {
  }

  /**
   * A deschematized symbol keeps its name and quantification, takes the
   * specialized type, and defines a type only when that type holds only
   * math types.
   */
  lemma DeschematizedSymbol(s: MathSymbol, args: seq<PExp>, specialize: Specialization)
    requires Deschematize(s, args, specialize).Success?
    ensures var d := Deschematize(s, args, specialize).value;
      && d.name == s.name && d.quantification == s.quantification
      && d.symType == specialize(s.symType, args)
      && (d.typeValue.Some? <==> IsKnownToContainOnlyMathTypes(specialize(s.symType, args)))
  {
  }

  /** The parameter list of a product domain lists each factor's type at its position. */
  lemma ExpandProduct(elements: seq<Element>, i: nat)
    requires i < |elements|
    ensures ExpandAsNeeded(MTCartesian(elements))[i] == elements[i].elementType
  {
  }
}
