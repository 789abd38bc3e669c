/**
 * The immutable prover terms (`PExp` and its subclasses) and their two
 * hashes, computed in Java `int` arithmetic exactly as the constructors do.
 */
module Terms {
  import opened Wrappers
  import opened JavaLang
  import opened MathTypes

  /** `PSymbol.DisplayStyle`. */
  datatype SymbolStyle = SPrefix | SInfix | SPostfix | SOutfix

  /** `PApply.DisplayStyle`. */
  datatype ApplyStyle = APrefix | AInfix | AMixfix | AOutfix

  /** The vc location token (by line) and explanation a term may carry. */
  datatype VCInfo = VCInfo(location: Option<int>, explanation: Option<string>)

  /** `PLambda.MathSymbolDeclaration`: a bound name and its type, as printed. */
  datatype Declaration = Declaration(declName: string, declType: string)

  datatype PExp =
    | PSymbol(name: string, lprint: string, rprint: string, qualifier: Option<string>,
              args: seq<PExp>, literal: bool, incoming: bool, quant: Quantification,
              style: SymbolStyle, mathType: MathType, mathTypeValue: Option<MathType>)
    | PApply(fn: PExp, args: seq<PExp>, appStyle: ApplyStyle, bracket: bool,
             appType: MathType, vcInfo: VCInfo)
    | PSegments(segs: seq<PExp>, segType: MathType)
    | PQuantified(assertion: PExp, qtype: Quantification, decls: seq<Declaration>)
    | PLambda(params: seq<PExp>, body: PExp, lambdaType: MathType, display: string)

  function MaxOf(xs: seq<nat>): (m: nat)
    ensures forall i :: 0 <= i < |xs| ==> xs[i] <= m
  {
    if |xs| == 0 then 0
    else
      var rest := MaxOf(xs[1..]);
      assert forall i :: 1 <= i < |xs| ==> xs[i] == xs[1..][i - 1];
      if xs[0] < rest then rest else xs[0]
  }

  /** The height of a term; every child is strictly lower than its parent. */
  function Depth(e: PExp): (d: nat)
    ensures d >= 1
  {
    match e
    case PSymbol(_, _, _, _, args, _, _, _, _, _, _) =>
      1 + MaxOf(seq(|args|, i requires 0 <= i < |args| => Depth(args[i])))
    case PApply(fn, args, _, _, _, _) =>
      var m := MaxOf(seq(|args|, i requires 0 <= i < |args| => Depth(args[i])));
      1 + (if Depth(fn) < m then m else Depth(fn))
    case PSegments(segs, _) =>
      1 + MaxOf(seq(|segs|, i requires 0 <= i < |segs| => Depth(segs[i])))
    case PQuantified(assertion, _, _) => 1 + Depth(assertion)
    case PLambda(_, _, _, _) => 1
  }

  lemma DepthOfChildren(e: PExp)
    ensures (e.PSymbol? || e.PApply?) ==> forall i :: 0 <= i < |e.args| ==> Depth(e.args[i]) < Depth(e)
    ensures e.PApply? ==> Depth(e.fn) < Depth(e)
    ensures e.PSegments? ==> forall i :: 0 <= i < |e.segs| ==> Depth(e.segs[i]) < Depth(e)
    ensures e.PQuantified? ==> Depth(e.assertion) < Depth(e)
  {
    match e
    case PSymbol(_, _, _, _, args, _, _, _, _, _, _) =>
      var ds := seq(|args|, i requires 0 <= i < |args| => Depth(args[i]));
      assert forall i :: 0 <= i < |args| ==> ds[i] == Depth(args[i]);
    case PApply(_, args, _, _, _, _) =>
      var ds := seq(|args|, i requires 0 <= i < |args| => Depth(args[i]));
      assert forall i :: 0 <= i < |args| ==> ds[i] == Depth(args[i]);
    case PSegments(segs, _) =>
      var ds := seq(|segs|, i requires 0 <= i < |segs| => Depth(segs[i]));
      assert forall i :: 0 <= i < |segs| ==> ds[i] == Depth(segs[i]);
    case PQuantified(_, _, _) =>
    case PLambda(_, _, _, _) =>
  }

  /**
   * The argument loop shared by both `calculateHashes`: starting from `acc`,
   * add each hash times its multiplier, the multiplier starting at `mod` and
   * growing by one per argument, all in `int` arithmetic.
   */
  function ArgFold(acc: int, hs: seq<int>, mod: int): (r: int)
    requires IsInt32(acc)
    ensures IsInt32(r)
    decreases hs
  {
    if |hs| == 0 then acc else ArgFold(Wrap(acc + hs[0] * mod), hs[1..], mod + 1)
  }

  /** `PSymbol.calculateHashes`' starting value hash: hash(left) * 59 + hash(right). */
  function SymbolBaseHash(left: string, right: string): int {
    Wrap(Wrap(StringHash(left) * 59) + StringHash(right))
  }

  /** `structureHash` of a term. */
  function StructureHash(e: PExp): (h: int)
    ensures IsInt32(h)
  {
    match e
    case PSymbol(_, _, _, _, args, _, _, _, _, _, _) =>
      if |args| == 0 then 0
      else ArgFold(17, seq(|args|, i requires 0 <= i < |args| => StructureHash(args[i])), 2)
    case PApply(_, args, _, _, _, _) =>
      if |args| == 0 then 0
      else ArgFold(17, seq(|args|, i requires 0 <= i < |args| => StructureHash(args[i])), 2)
    case PSegments(segs, _) =>
      if |segs| == 0 then 0
      else ArgFold(17, seq(|segs|, i requires 0 <= i < |segs| => StructureHash(segs[i])), 2)
    case PQuantified(assertion, _, _) => StructureHash(assertion)
    case PLambda(_, _, _, _) => 0
  }

  /** `valueHash` of a term; `hashCode` returns it. */
  function ValueHash(e: PExp): (h: int)
    ensures IsInt32(h)
  {
    match e
    case PSymbol(_, lprint, rprint, _, args, _, _, _, _, _, _) =>
      ArgFold(SymbolBaseHash(lprint, rprint), seq(|args|, i requires 0 <= i < |args| => ValueHash(args[i])), 2)
    case PApply(fn, args, _, _, _, _) =>
      ArgFold(ValueHash(fn), seq(|args|, i requires 0 <= i < |args| => ValueHash(args[i])), 2)
    case PSegments(segs, _) =>
      ArgFold(SymbolBaseHash("", ""), seq(|segs|, i requires 0 <= i < |segs| => ValueHash(segs[i])), 2)
    case PQuantified(assertion, _, _) => ValueHash(assertion)
    case PLambda(_, _, _, _) => 0
  }

  /** The math classification every term carries. */
  function MathTypeOf(e: PExp): MathType {
    match e
    case PSymbol(_, _, _, _, _, _, _, _, _, mathType, _) => mathType
    case PApply(_, _, _, _, appType, _) => appType
    case PSegments(_, segType) => segType
    case PQuantified(assertion, _, _) => MathTypeOf(assertion)
    case PLambda(_, _, lambdaType, _) => lambdaType
  }
}

module HashFacts {
  import opened JavaLang
  import opened Terms

  /** Σ hs[i] * (mod + i), over the mathematical integers. */
  function WeightedSum(hs: seq<int>, mod: int): int
    decreases hs
  {
    if |hs| == 0 then 0 else hs[0] * mod + WeightedSum(hs[1..], mod + 1)
  }

  lemma ModShift(a: int, k: int)
    ensures (a + k * TWO_32) % TWO_32 == a % TWO_32
  {
    var q := a / TWO_32;
    var r := a % TWO_32;
    assert a == q * TWO_32 + r;
    assert a + k * TWO_32 == (q + k) * TWO_32 + r;
  }

  lemma WrapAddWrap(x: int, y: int)
    ensures Wrap(Wrap(x) + y) == Wrap(x + y)
  {
    var k := (x - INT_MIN) / TWO_32;
    assert Wrap(x) == x - k * TWO_32;
    ModShift(x + y - INT_MIN, -k);
    assert Wrap(x) + y - INT_MIN == (x + y - INT_MIN) + (-k) * TWO_32;
  }

  /** Each argument loop of `calculateHashes` computes acc + Σ hᵢ·(mod + i), wrapped to `int`. */
  lemma {:induction false} ArgFoldIsWeightedSum(acc: int, hs: seq<int>, mod: int)
    requires IsInt32(acc)
    ensures ArgFold(acc, hs, mod) == Wrap(acc + WeightedSum(hs, mod))
    decreases hs
  {
    if |hs| > 0 {
      var next := Wrap(acc + hs[0] * mod);
      ArgFoldIsWeightedSum(next, hs[1..], mod + 1);
      WrapAddWrap(acc + hs[0] * mod, WeightedSum(hs[1..], mod + 1));
    }
  }

  function ChildStructureHashes(xs: seq<PExp>): (r: seq<int>)
    ensures |r| == |xs| && forall i :: 0 <= i < |xs| ==> r[i] == StructureHash(xs[i])
  {
    seq(|xs|, i requires 0 <= i < |xs| => StructureHash(xs[i]))
  }

  function ChildValueHashes(xs: seq<PExp>): (r: seq<int>)
    ensures |r| == |xs| && forall i :: 0 <= i < |xs| ==> r[i] == ValueHash(xs[i])
  {
    seq(|xs|, i requires 0 <= i < |xs| => ValueHash(xs[i]))
  }

  /**
   * A symbol's structure hash is 0 without arguments and otherwise
   * 17 + Σ argᵢ.structureHash·(i+2); its value hash is
   * hash(lprint)·59 + hash(rprint) + Σ argᵢ.valueHash·(i+2); all modulo 2³².
   */
  lemma SymbolHashes(e: PExp)
    requires e.PSymbol?
    ensures |e.args| == 0 ==> StructureHash(e) == 0
    ensures |e.args| > 0 ==> StructureHash(e) == Wrap(17 + WeightedSum(ChildStructureHashes(e.args), 2))
    ensures ValueHash(e) == Wrap(StringHash(e.lprint) * 59 + StringHash(e.rprint) + WeightedSum(ChildValueHashes(e.args), 2))
  {
    if |e.args| > 0 {
      SymbolStructureHash(e);
    }
    SymbolValueHash(e);
  }

  lemma SymbolStructureHash(e: PExp)
    requires e.PSymbol? && |e.args| > 0
    ensures StructureHash(e) == Wrap(17 + WeightedSum(ChildStructureHashes(e.args), 2))
  {
    assert ChildStructureHashes(e.args) == seq(|e.args|, i requires 0 <= i < |e.args| => StructureHash(e.args[i]));
    ArgFoldIsWeightedSum(17, ChildStructureHashes(e.args), 2);
  }

  lemma SymbolValueHash(e: PExp)
    requires e.PSymbol?
    ensures ValueHash(e) == Wrap(StringHash(e.lprint) * 59 + StringHash(e.rprint) + WeightedSum(ChildValueHashes(e.args), 2))
  {
    assert ChildValueHashes(e.args) == seq(|e.args|, i requires 0 <= i < |e.args| => ValueHash(e.args[i]));
    ArgFoldIsWeightedSum(SymbolBaseHash(e.lprint, e.rprint), ChildValueHashes(e.args), 2);
    SymbolValueHashSteps(StringHash(e.lprint), StringHash(e.rprint), WeightedSum(ChildValueHashes(e.args), 2));
  }

  /** The value hash's steps, each wrapped, equal their sum wrapped once. */
  lemma SymbolValueHashSteps(l: int, r: int, w: int)
    ensures Wrap(Wrap(Wrap(l * 59) + r) + w) == Wrap(l * 59 + r + w)
  {
    WrapAddWrap(l * 59, r);
    WrapAddWrap(l * 59 + r, w);
  }

  /**
   * An application's structure hash is 0 without arguments and otherwise
   * 17 + Σ argᵢ.structureHash·(i+2); its value hash starts at the function
   * portion's value hash; all modulo 2³².
   */
  lemma ApplyHashes(e: PExp)
    requires e.PApply?
    ensures |e.args| == 0 ==> StructureHash(e) == 0
    ensures |e.args| > 0 ==> StructureHash(e) == Wrap(17 + WeightedSum(ChildStructureHashes(e.args), 2))
    ensures ValueHash(e) == Wrap(ValueHash(e.fn) + WeightedSum(ChildValueHashes(e.args), 2))
  {
    if |e.args| > 0 {
      ApplyStructureHash(e);
    }
    ApplyValueHash(e);
  }

  lemma ApplyStructureHash(e: PExp)
    requires e.PApply? && |e.args| > 0
    ensures StructureHash(e) == Wrap(17 + WeightedSum(ChildStructureHashes(e.args), 2))
  {
    assert ChildStructureHashes(e.args) == seq(|e.args|, i requires 0 <= i < |e.args| => StructureHash(e.args[i]));
    ArgFoldIsWeightedSum(17, ChildStructureHashes(e.args), 2);
  }

  lemma ApplyValueHash(e: PExp)
    requires e.PApply?
    ensures ValueHash(e) == Wrap(ValueHash(e.fn) + WeightedSum(ChildValueHashes(e.args), 2))
  {
    assert ChildValueHashes(e.args) == seq(|e.args|, i requires 0 <= i < |e.args| => ValueHash(e.args[i]));
    ArgFoldIsWeightedSum(ValueHash(e.fn), ChildValueHashes(e.args), 2);
  }

  /** A quantified node's hashes are its assertion's. */
  lemma QuantifiedHashes(e: PExp)
    requires e.PQuantified?
    ensures StructureHash(e) == StructureHash(e.assertion) && ValueHash(e) == ValueHash(e.assertion)
  {
  }
}
