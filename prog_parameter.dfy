/**
 * `ProgParameterSymbol`: an operation's formal parameter, its mode, and the
 * table of which modes an implementation may use for a mode its
 * specification declares.
 */
module ProgParameters {
  import opened Wrappers
  import opened JavaLang
  import opened MathTypes
  import opened Terms
  import opened ProgTypes
  import opened MathSymbols
  import opened TermMethods

  datatype ParameterMode = Alters | Updates | Replaces | Clears | Restores | Preserves | Evaluates

  /** `ParameterMode.values()`, in declaration order. */
  const ALL_MODES: seq<ParameterMode> := [Alters, Updates, Replaces, Clears, Restores, Preserves, Evaluates]

  /** The enum constant's name, as `toString` gives it. */
  function ModeName(m: ParameterMode): string {
    match m
    case Alters => "ALTERS"
    case Updates => "UPDATES"
    case Replaces => "REPLACES"
    case Clears => "CLEARS"
    case Restores => "RESTORES"
    case Preserves => "PRESERVES"
    case Evaluates => "EVALUATES"
  }

  /** `getValidImplementationModes`, one table row per mode, each listing the mode itself first. */
  function ValidImplementationModes(m: ParameterMode): (r: seq<ParameterMode>)
    ensures |r| > 0 && r[0] == m
  {
    match m
    case Alters => [Alters, Clears]
    case Updates => [Updates, Clears, Restores, Preserves]
    case Replaces => [Replaces, Clears]
    case Clears => [Clears]
    case Restores => [Restores, Preserves]
    case Preserves => [Preserves]
    case Evaluates => [Evaluates]
  }

  /** A specification mode `m` may be implemented with mode `o`. */
  predicate CanImplement(m: ParameterMode, o: ParameterMode) {
    o in ValidImplementationModes(m)
  }

  /** `contains`: a linear search that stops at the first match. */
  method Contains(os: seq<ParameterMode>, o: ParameterMode) returns (result: bool)
    ensures result <==> o in os
  {
    result := false;
    var i := 0;
    while !result && i < |os|
      invariant 0 <= i <= |os|
      invariant result <==> o in os[..i]
      invariant result ==> i > 0 && os[i - 1] == o
      decreases |os| - i
    {
      assert os[..i + 1] == os[..i] + [os[i]];
      result := os[i] == o;
      i := i + 1;
    }
    assert !result ==> os[..i] == os;
  }

  /** `canBeImplementedWith`. */
  method CanBeImplementedWith(m: ParameterMode, o: ParameterMode) returns (r: bool)
    ensures r <==> CanImplement(m, o)
  {
    r := Contains(ValidImplementationModes(m), o);
  }

  /** The lower-case name of each mode. */
  function LowerModeName(m: ParameterMode): (r: string)
    ensures r == ToLower(ModeName(m))
  {
    var r := match m
      case Alters => "alters"
      case Updates => "updates"
      case Replaces => "replaces"
      case Clears => "clears"
      case Restores => "restores"
      case Preserves => "preserves"
      case Evaluates => "evaluates";
    assert r == ToLower(ModeName(m)) by {
      assert |r| == |ModeName(m)|;
      forall i | 0 <= i < |r|
        ensures r[i] == LowerChar(ModeName(m)[i])
      {
      }
    }
    r
  }

  /** The map `getModeMapping` fills in: each mode put under its lower-case name, in the given order. */
  function ModeMapOf(ms: seq<ParameterMode>): map<string, ParameterMode> {
    if |ms| == 0 then map[]
    else ModeMapOf(ms[..|ms| - 1])[LowerModeName(ms[|ms| - 1]) := ms[|ms| - 1]]
  }

  /** `getModeMapping`: the lower-case name of every mode, mapped to that mode. */
  method GetModeMapping() returns (result: map<string, ParameterMode>)
    ensures result == ModeMapOf(ALL_MODES)
  {
    result := map[];
    var modes := ALL_MODES;
    for i := 0 to |modes|
      invariant result == ModeMapOf(modes[..i])
    {
      assert modes[..i + 1][..i] == modes[..i];
      result := result[ToLower(ModeName(modes[i])) := modes[i]];
    }
    assert modes[..|modes|] == modes;
  }

  /** A formal parameter: its name, mode and declared program type. */
  datatype ProgParameterSymbol = ProgParameterSymbol(name: string, mode: ParameterMode, declaredType: ProgType)

  /** `toString`: the lower-case mode in angle brackets, then the name. */
  function ParameterToString(p: ProgParameterSymbol): (r: string)
    ensures |r| == |LowerModeName(p.mode)| + 2 + |p.name|
    ensures r[0] == '<' && r[1 + |LowerModeName(p.mode)|] == '>'
    ensures r[1..1 + |LowerModeName(p.mode)|] == LowerModeName(p.mode)
    ensures r[2 + |LowerModeName(p.mode)|..] == p.name
  {
    "<" + LowerModeName(p.mode) + ">" + p.name
  }

  /** `toMathSymbol`: the math alter-ego made by the constructor, unquantified, of the declared type's math type. */
  function ToMathSymbol(p: ProgParameterSymbol): (r: MathSymbol)
    ensures r.name == p.name && r.quantification == QNone && r.symType == ToMath(p.declaredType)
  {
    NewMathSymbol(p.name, QNone, ToMath(p.declaredType), None)
  }

  /** `asPSymbol`: a variable named after the parameter, of the declared type's math type. */
  function AsPSymbol(p: ProgParameterSymbol): (r: PExp)
    ensures r.PSymbol? && r.args == [] && r.name == p.name && r.mathType == ToMath(p.declaredType)
  {
    PSymbol(p.name, p.name, p.name, None, [], false, false, QNone, SPrefix, ToMath(p.declaredType), None)
  }

  /** `asPSymbol` as written: through the symbol builder. */
  method BuildPSymbol(p: ProgParameterSymbol) returns (r: Result<PExp>)
    ensures r == Success(AsPSymbol(p))
  {
    var naming := SymbolNaming(p.name, Some(p.name), p.name);
    var b := new PSymbolBuilder(naming);
    b.SetMathType(Some(ToMath(p.declaredType)));
    r := b.Build();
  }

  /** `instantiateGenerics`: the same parameter over the instantiated declared type. */
  function InstantiateParameter(p: ProgParameterSymbol, inst: map<string, ProgType>): (r: ProgParameterSymbol)
    ensures r.name == p.name && r.mode == p.mode
  {
    ProgParameterSymbol(p.name, p.mode, InstantiateGenerics(p.declaredType, inst))
  }
}

module ProgParameterFacts {
  import opened JavaLang
  import opened ProgTypes
  import opened ProgTypesFacts
  import opened ProgParameters

  /** Every mode can be implemented with itself. */
  lemma ImplementsReflexive(m: ParameterMode)
    ensures CanImplement(m, m)
  {
  }

  /** Implementation modes chain: the relation is transitive. */
  lemma ImplementsTransitive(a: ParameterMode, b: ParameterMode, c: ParameterMode)
    requires CanImplement(a, b) && CanImplement(b, c)
    ensures CanImplement(a, c)
  {
  }

  /** Two distinct modes never implement each other. */
  lemma ImplementsAntisymmetric(a: ParameterMode, b: ParameterMode)
    requires CanImplement(a, b) && CanImplement(b, a)
    ensures a == b
  {
  }

  /** Clears, preserves and evaluates admit only themselves. */
  lemma OnlyThemselves(m: ParameterMode, o: ParameterMode)
    requires m == Clears || m == Preserves || m == Evaluates
    ensures CanImplement(m, o) <==> o == m
  {
  }

  /** Clearing is a valid implementation of every mode that may change the value, and of none that must keep it. */
  lemma ClearsImplements(m: ParameterMode)
    ensures CanImplement(m, Clears) <==> m in {Alters, Updates, Replaces, Clears}
  {
  }

  /** Lower-case names tell modes apart and never hold a closing angle bracket. */
  lemma LowerNamesDistinct(a: ParameterMode, b: ParameterMode)
    ensures LowerModeName(a) == LowerModeName(b) <==> a == b
    ensures forall i :: 0 <= i < |LowerModeName(a)| ==> LowerModeName(a)[i] != '>'
  {
  }

  /** The mode mapping, entry by entry. */
  lemma {:induction false} ModeMapValue()
    ensures ModeMapOf(ALL_MODES) == map["alters" := Alters, "updates" := Updates, "replaces" := Replaces, "clears" := Clears,
                                        "restores" := Restores, "preserves" := Preserves, "evaluates" := Evaluates]
  {
    assert ALL_MODES[..1][..0] == [];
    assert ModeMapOf(ALL_MODES[..1]) == map["alters" := Alters];
    assert ALL_MODES[..2][..1] == ALL_MODES[..1];
    assert ModeMapOf(ALL_MODES[..2]) == ModeMapOf(ALL_MODES[..1])["updates" := Updates];
    assert ALL_MODES[..3][..2] == ALL_MODES[..2];
    assert ModeMapOf(ALL_MODES[..3]) == ModeMapOf(ALL_MODES[..2])["replaces" := Replaces];
    assert ALL_MODES[..4][..3] == ALL_MODES[..3];
    assert ModeMapOf(ALL_MODES[..4]) == ModeMapOf(ALL_MODES[..3])["clears" := Clears];
    assert ALL_MODES[..5][..4] == ALL_MODES[..4];
    assert ModeMapOf(ALL_MODES[..5]) == ModeMapOf(ALL_MODES[..4])["restores" := Restores];
    assert ALL_MODES[..6][..5] == ALL_MODES[..5];
    assert ModeMapOf(ALL_MODES[..6]) == ModeMapOf(ALL_MODES[..5])["preserves" := Preserves];
    assert ALL_MODES[..6] == ALL_MODES[..|ALL_MODES| - 1];
    assert ModeMapOf(ALL_MODES) == ModeMapOf(ALL_MODES[..6])["evaluates" := Evaluates];
  }

  /** The mode mapping finds every mode under its lower-case name, and maps each name back to its mode. */
  lemma ModeMappingInverse()
    ensures forall m: ParameterMode :: ToLower(ModeName(m)) in ModeMapOf(ALL_MODES) && ModeMapOf(ALL_MODES)[ToLower(ModeName(m))] == m
    ensures forall k :: k in ModeMapOf(ALL_MODES) ==> LowerModeName(ModeMapOf(ALL_MODES)[k]) == k
  {
    ModeMapValue();
    forall m: ParameterMode
      ensures ToLower(ModeName(m)) in ModeMapOf(ALL_MODES) && ModeMapOf(ALL_MODES)[ToLower(ModeName(m))] == m
    {
      assert ToLower(ModeName(m)) == LowerModeName(m);
    }
  }

  /** A word free of `>` is recovered from the text `<word>rest`, and so is the rest. */
  lemma BracketedWord(a: string, b: string, x: string, y: string)
    requires forall i :: 0 <= i < |a| ==> a[i] != '>'
    requires forall i :: 0 <= i < |b| ==> b[i] != '>'
    requires "<" + a + ">" + x == "<" + b + ">" + y
    ensures a == b && x == y
  {
    var s := "<" + a + ">" + x;
    var t := "<" + b + ">" + y;
    assert forall i :: 0 <= i < |a| ==> s[1 + i] == a[i];
    assert forall i :: 0 <= i < |b| ==> t[1 + i] == b[i];
    assert s[1 + |a|] == '>' && t[1 + |b|] == '>';
    if |a| < |b| {
      assert false;
    } else if |b| < |a| {
      assert false;
    } else {
      assert s[1..1 + |a|] == a && t[1..1 + |b|] == b;
      assert s[2 + |a|..] == x && t[2 + |b|..] == y;
    }
  }

  /** `toString` loses nothing: two parameters with the same text have the same mode and name. */
  lemma ToStringInjective(p: ProgParameterSymbol, q: ProgParameterSymbol)
    requires ParameterToString(p) == ParameterToString(q)
    ensures p.mode == q.mode && p.name == q.name
  {
    LowerNamesDistinct(p.mode, q.mode);
    LowerNamesDistinct(q.mode, p.mode);
    BracketedWord(LowerModeName(p.mode), LowerModeName(q.mode), p.name, q.name);
  }

  /** Instantiating with nothing gives back the same parameter. */
  lemma InstantiateParameterWithNothing(p: ProgParameterSymbol)
    ensures InstantiateParameter(p, map[]) == p
  {
    InstantiateWithNothing(p.declaredType);
  }

  /** The symbol a parameter stands for in assertions has the type of its math alter-ego. */
  lemma AlterEgosAgree(p: ProgParameterSymbol)
    ensures AsPSymbol(p).mathType == ToMathSymbol(p).symType && AsPSymbol(p).name == ToMathSymbol(p).name
  {
  }
}
