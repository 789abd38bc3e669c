/**
 * Math classifications that the prover terms and the symbol table carry.
 * Only the shapes the modelled code inspects are distinguished; the type
 * graph's other types are `MTOther` values with the two flags the code asks
 * about.
 */
module MathTypes {
  import opened Wrappers

  /** `Quantification`: a symbol is free, universally or existentially bound. */
  datatype Quantification = QNone | Universal | Existential

  /** `Quantification.flipped`: universal and existential trade places. */
  function Flipped(q: Quantification): (r: Quantification)
    ensures (r == QNone) <==> (q == QNone)
    ensures r != q || q == QNone
  {
    match q
    case QNone => QNone
    case Universal => Existential
    case Existential => Universal
  }

  datatype MathType =
    | MTProper(ofType: Option<MathType>, onlyMathTypes: bool, properName: Option<string>)
    | MTNamed(namedName: string)
    | MTFunction(domain: MathType, range: MathType)
    | MTCartesian(elements: seq<Element>)
    | MTOther(otherName: string, onlyMathTypes: bool, membersOnlyMathTypes: bool)

  /** A tagged factor of a cartesian product. */
  datatype Element = Element(tag: string, elementType: MathType)

  /** The type graph's fixed proper types. */
  const CLS: MathType := MTProper(None, true, Some("Cls"))
  const SSET: MathType := MTProper(Some(CLS), true, Some("SSet"))
  const BOOLEAN: MathType := MTProper(Some(SSET), false, Some("B"))
  const VOID: MathType := MTProper(Some(CLS), false, Some("Void"))

  /** `MTType.isKnownToContainOnlyMathTypes`. */
  predicate IsKnownToContainOnlyMathTypes(t: MathType) {
    (t.MTProper? || t.MTOther?) && t.onlyMathTypes
  }

  /** `MTType.membersKnownToContainOnlyMathTypes`. */
  predicate MembersKnownToContainOnlyMathTypes(t: MathType) {
    t.MTOther? && t.membersOnlyMathTypes
  }
}
