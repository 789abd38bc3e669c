/**
 * Program types: generics, records, and the two named kinds the VC builder
 * distinguishes (type families and their representations), with their math
 * alter-egos and generic instantiation.
 */
module ProgTypes {
  import opened Wrappers
  import opened MathTypes
  import opened Terms

  /** What the VC builder reads from a type model: its constraint and its initialization ensures. */
  datatype TypeModel = TypeModel(constraint: PExp, modelInitEnsures: PExp)

  /**
   * A `ProgReprTypeSymbol` as the VC builder uses it: the convention and
   * correspondence, the representation's exemplar and the conceptual
   * exemplar as symbols, and the type model it realizes (none for a
   * standalone representation).
   */
  datatype ReprTypeSymbol = ReprTypeSymbol(
    reprName: string,
    convention: PExp,
    correspondence: PExp,
    exemplar: PExp,
    conceptualExemplar: PExp,
    definition: Option<TypeModel>)

  datatype ProgType =
    | PTGeneric(genericName: string)
    /** A record's fields, in the iteration order of the map it was built from. */
    | ProgRecordType(fields: seq<(string, ProgType)>)
    | PTFamily(familyName: string, familyExemplar: string, familyMath: MathType, familyInitEnsures: PExp, familyConstraint: PExp)
    | PTRepresentation(reprTypeName: string, reprExemplar: string, baseType: ProgType, reprInitEnsures: PExp, reprSymbol: ReprTypeSymbol)

  /** `PTNamed`: both families and representations. */
  predicate IsNamed(t: ProgType) {
    t.PTFamily? || t.PTRepresentation?
  }

  function ExemplarName(t: ProgType): string
    requires IsNamed(t)
  {
    if t.PTFamily? then t.familyExemplar else t.reprExemplar
  }

  function InitializationEnsures(t: ProgType): PExp
    requires IsNamed(t)
  {
    if t.PTFamily? then t.familyInitEnsures else t.reprInitEnsures
  }

  /** The names of a record's fields, in order. */
  function FieldNames(fields: seq<(string, ProgType)>): (r: seq<string>)
    ensures |r| == |fields| && forall i :: 0 <= i < |fields| ==> r[i] == fields[i].0
  {
    seq(|fields|, i requires 0 <= i < |fields| => fields[i].0)
  }

  /** A record built from a map has each field name once. */
  predicate DistinctNames(fields: seq<(string, ProgType)>) {
    forall i, j :: 0 <= i < j < |fields| ==> fields[i].0 != fields[j].0
  }

  /**
   * `toMath`: a generic is the named math type of its name, a record the
   * cartesian product with one element per field, a representation the
   * math type of its base type.
   */
  function ToMath(t: ProgType): (r: MathType)
    ensures t.PTGeneric? ==> r == MTNamed(t.genericName)
    ensures t.ProgRecordType? ==>
      r.MTCartesian? && |r.elements| == |t.fields| && forall i :: 0 <= i < |t.fields| ==> r.elements[i].tag == t.fields[i].0
    ensures t.PTFamily? ==> r == t.familyMath
  {
    match t
    case PTGeneric(name) => MTNamed(name)
    case ProgRecordType(fields) =>
      MTCartesian(seq(|fields|, i requires 0 <= i < |fields| => Element(fields[i].0, ToMath(fields[i].1))))
    case PTFamily(_, _, m, _, _) => m
    case PTRepresentation(_, _, base, _, _) => ToMath(base)
  }

  /** `isAggregateType`: records are, representations are when their base type is. */
  function IsAggregateType(t: ProgType): bool {
    match t
    case ProgRecordType(_) => true
    case PTRepresentation(_, _, base, _, _) => IsAggregateType(base)
    case _ => false
  }

  /** `toString` of a generic is its name. */
  function GenericToString(t: ProgType): string
    requires t.PTGeneric?
  {
    t.genericName
  }

  /** `PTGeneric.equals`: the other type is a generic of the same name. */
  predicate GenericEquals(t: ProgType, o: ProgType)
    requires t.PTGeneric?
  {
    o.PTGeneric? && o.genericName == t.genericName
  }

  /**
   * `instantiateGenerics`: a generic whose name is mapped becomes its
   * instantiation, a record instantiates every field type and keeps the
   * field names, and the named types are left as they are.
   */
  function InstantiateGenerics(t: ProgType, inst: map<string, ProgType>): (r: ProgType)
    ensures t.PTGeneric? ==> r == (if t.genericName in inst then inst[t.genericName] else t)
    ensures t.ProgRecordType? ==> r.ProgRecordType? && FieldNames(r.fields) == FieldNames(t.fields)
  {
    match t
    case PTGeneric(name) => if name in inst then inst[name] else t
    case ProgRecordType(fields) =>
      ProgRecordType(seq(|fields|, i requires 0 <= i < |fields| => (fields[i].0, InstantiateGenerics(fields[i].1, inst))))
    case PTFamily(_, _, _, _, _) => t
    case PTRepresentation(_, _, _, _, _) => t
  }

  /** `getFieldType`: the type stored under the name, or NoSuchElementException. */
  function GetFieldType(fields: seq<(string, ProgType)>, n: string): (r: Result<ProgType>)
    ensures r.Success? <==> n in FieldNames(fields)
    ensures r.Error? ==> r.error == NoSuchElement
    ensures r.Success? ==> exists i :: 0 <= i < |fields| && fields[i] == (n, r.value)
  {
    if |fields| == 0 then Error(NoSuchElement)
    else if fields[0].0 == n then Success(fields[0].1)
    else
      var r := GetFieldType(fields[1..], n);
      assert FieldNames(fields) == [fields[0].0] + FieldNames(fields[1..]);
      if r.Success? then
        assert exists i :: 0 <= i < |fields[1..]| && fields[1..][i] == (n, r.value);
        r
      else r
  }
}

module ProgTypesFacts {
  import opened Wrappers
  import opened MathTypes
  import opened ProgTypes

  /** Instantiating with no bindings changes no type. */
  lemma {:induction false} InstantiateWithNothing(t: ProgType)
    ensures InstantiateGenerics(t, map[]) == t
  {
    match t
    case ProgRecordType(fields) =>
      forall i | 0 <= i < |fields|
        ensures InstantiateGenerics(fields[i].1, map[]) == fields[i].1
      {
        InstantiateWithNothing(fields[i].1);
      }
      assert InstantiateGenerics(t, map[]).fields == fields;
    case _ =>
  }

  /** The math alter-ego of a record gives each field the math type of that field's program type. */
  lemma RecordMathElements(t: ProgType)
    requires t.ProgRecordType?
    ensures forall i :: 0 <= i < |t.fields| ==> ToMath(t).elements[i] == Element(t.fields[i].0, ToMath(t.fields[i].1))
  {
  }

  /** Looking up a field of an instantiated record is instantiating the field found in the record. */
  lemma {:induction false} FieldOfInstantiated(fields: seq<(string, ProgType)>, inst: map<string, ProgType>, n: string)
    ensures var r := GetFieldType(InstantiateGenerics(ProgRecordType(fields), inst).fields, n);
      && r.Success? == GetFieldType(fields, n).Success?
      && (r.Success? ==> r.value == InstantiateGenerics(GetFieldType(fields, n).value, inst))
    decreases |fields|
  {
    var instd := InstantiateGenerics(ProgRecordType(fields), inst).fields;
    if |fields| > 0 && fields[0].0 != n {
      FieldOfInstantiated(fields[1..], inst, n);
      assert instd[1..] == InstantiateGenerics(ProgRecordType(fields[1..]), inst).fields;
    }
  }

  /** A record built from a map finds each field under its own name. */
  lemma {:induction false} FieldTypeOfDistinct(fields: seq<(string, ProgType)>, i: nat)
    requires DistinctNames(fields) && i < |fields|
    ensures GetFieldType(fields, fields[i].0) == Success(fields[i].1)
    decreases i
  {
    if i > 0 {
      assert fields[0].0 != fields[i].0;
      assert DistinctNames(fields[1..]) by {
        forall a, b | 0 <= a < b < |fields[1..]|
          ensures fields[1..][a].0 != fields[1..][b].0
        {
          assert fields[1..][a] == fields[a + 1] && fields[1..][b] == fields[b + 1];
        }
      }
      assert fields[1..][i - 1] == fields[i];
      FieldTypeOfDistinct(fields[1..], i - 1);
    }
  }

  /** Two generics are equal exactly when they have the same math alter-ego, or the same text. */
  lemma GenericIdentity(a: ProgType, b: ProgType)
    requires a.PTGeneric? && b.PTGeneric?
    ensures GenericEquals(a, b) <==> ToMath(a) == ToMath(b)
    ensures GenericEquals(a, b) <==> GenericToString(a) == GenericToString(b)
    ensures GenericEquals(a, b) <==> a == b
  {
  }

  /** The type a chain of representations finally stands for. */
  function Underneath(t: ProgType): ProgType {
    match t
    case PTRepresentation(_, _, base, _, _) => Underneath(base)
    case _ => t
  }

  /** A type is aggregate exactly when what its representations finally stand for is a record. */
  lemma {:induction false} AggregateIffRecordUnderneath(t: ProgType)
    ensures IsAggregateType(t) <==> Underneath(t).ProgRecordType?
  {
    match t
    case PTRepresentation(_, _, base, _, _) =>
      AggregateIffRecordUnderneath(base);
    case _ =>
  }
}
