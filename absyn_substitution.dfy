/**
 * `PExp.substitute` for every kind of term, the overloads that build the
 * map first, and `staysSameAfterSubstitution`.
 */
module Substitution {
  import opened Wrappers
  import opened JavaLang
  import opened MathTypes
  import opened Terms
  import opened Equality
  import opened EqualityFacts
  import opened SubstMaps

  /** `Collections.replaceAll(cs, from, to)`. */
  function ReplaceAll(cs: seq<string>, from: string, to: string): (r: seq<string>)
    ensures |r| == |cs|
  {
    seq(|cs|, i requires 0 <= i < |cs| => if cs[i] == from then to else cs[i])
  }

  /** The entry loop of `substituteNamedComponents`: each symbol-to-symbol entry renames, in map order. */
  function RenameComponents(cs: seq<string>, m: SubstMap): (r: seq<string>)
    ensures |r| == |cs|
    decreases |m|
  {
    if |m| == 0 then cs
    else
      var cs' := if m[0].0.PSymbol? && m[0].1.PSymbol? then ReplaceAll(cs, m[0].0.name, m[0].1.name) else cs;
      RenameComponents(cs', m[1..])
  }

  /** No symbol-to-symbol entry of the map has one of the components as its key name. */
  predicate NoneRenamed(cs: seq<string>, m: SubstMap) {
    forall j :: 0 <= j < |m| && m[j].0.PSymbol? && m[j].1.PSymbol? ==> m[j].0.name !in cs
  }

  /** The component loop leaves the components alone when no symbol-to-symbol key names one of them. */
  lemma {:induction false} RenameUntouched(cs: seq<string>, m: SubstMap)
    requires NoneRenamed(cs, m)
    ensures RenameComponents(cs, m) == cs
    decreases |m|
  {
    if |m| > 0 {
      if m[0].0.PSymbol? && m[0].1.PSymbol? {
        assert ReplaceAll(cs, m[0].0.name, m[0].1.name) == cs;
      }
      RenameUntouched(cs, m[1..]);
    }
  }

  /**
   * The name a symbol's substitution gives it: each dotted component is
   * renamed by the map. A name without a dot, or holding "...", is kept, and
   * so is a name none of whose components the map renames, unless it ends
   * in a dot (`split` drops the empty last component).
   */
  function SubstituteNamedComponents(name: string, m: SubstMap): (r: string)
    ensures '.' !in name || Contains(name, "...") ==> r == name
    ensures NoneRenamed(SplitOnDot(name), m) && (|name| == 0 || name[|name| - 1] != '.') ==> r == name
  {
    if '.' !in name then name
    else if Contains(name, "...") then name
    else
      var cs := SplitOnDot(name);
      if NoneRenamed(cs, m) && name[|name| - 1] != '.' then
        RenameUntouched(cs, m);
        SplitOnDotJoin(name);
        Join(RenameComponents(cs, m), ".")
      else Join(RenameComponents(cs, m), ".")
  }

  /** `PSegments.substitute`'s loop: a segment that became a `PSegments` is spliced in flat. */
  function Flatten(xs: seq<PExp>): (r: seq<PExp>)
    ensures |xs| == 0 ==> r == []
  {
    if |xs| == 0 then []
    else (if xs[0].PSegments? then xs[0].segs else [xs[0]]) + Flatten(xs[1..])
  }

  /**
   * The quantification a prefix symbol with arguments takes: that of the
   * symbol the map gives for the symbol's nullary form, if any.
   */
  function FunctionQuantification(e: PExp, newName: string, m: SubstMap): Quantification
    requires e.PSymbol?
  {
    if |e.args| > 0 && e.style == SPrefix then
      var asVariable := PSymbol(newName, newName, newName, None, [], e.literal, e.incoming, e.quant,
                                SPrefix, e.mathType, e.mathTypeValue);
      match Get(m, asVariable)
      case Some(f) => if f.PSymbol? then f.quant else e.quant
      case None => e.quant
    else e.quant
  }

  /**
   * `substitute(Map)`. A symbol, application or segments node that is a key
   * of the map becomes the mapped value; otherwise a symbol or application
   * is rebuilt with as many arguments and the same style, and the rebuilt
   * symbol is no literal. A quantified node keeps its quantifier and
   * declarations, and a lambda is left as it is.
   */
  function Substitute(e: PExp, m: SubstMap): (r: PExp)
    ensures (e.PSymbol? || e.PApply? || e.PSegments?) && Get(m, e).Some? ==> r == Get(m, e).value
    ensures e.PSymbol? && Get(m, e).None? ==> r.PSymbol? && |r.args| == |e.args| && r.style == e.style && !r.literal
    ensures e.PApply? && Get(m, e).None? ==> r.PApply? && |r.args| == |e.args| && r.appStyle == e.appStyle
    ensures e.PQuantified? ==> r.PQuantified? && r.qtype == e.qtype && r.decls == e.decls
    ensures e.PLambda? ==> r == e
  {
    match e
    case PSymbol(name, lprint, rprint, _, args, _, incoming, _, style, mathType, mathTypeValue) =>
      if Get(m, e).Some? then Get(m, e).value
      else
        var newName := SubstituteNamedComponents(name, m);
        var newQuant := FunctionQuantification(e, newName, m);
        var newArgs := seq(|args|, i requires 0 <= i < |args| => Substitute(args[i], m));
        if style == SOutfix then
          PSymbol(lprint + "..." + rprint, lprint, rprint, None, newArgs, false, incoming, newQuant,
                  style, mathType, mathTypeValue)
        else
          PSymbol(newName, newName, newName, None, newArgs, false, incoming, newQuant,
                  style, mathType, mathTypeValue)
    case PApply(fn, args, appStyle, _, appType, vcInfo) =>
      if Get(m, e).Some? then Get(m, e).value
      else
        var newArgs := seq(|args|, i requires 0 <= i < |args| => Substitute(args[i], m));
        PApply(Substitute(fn, m), newArgs, appStyle, false, appType, vcInfo)
    case PSegments(segs, segType) =>
      if Get(m, e).Some? then Get(m, e).value
      else
        var newSegs := Flatten(seq(|segs|, i requires 0 <= i < |segs| => Substitute(segs[i], m)));
        PSegments(newSegs, if |newSegs| > 0 then MathTypeOf(newSegs[|newSegs| - 1]) else segType)
    case PQuantified(assertion, qtype, decls) =>
      PQuantified(Substitute(assertion, m), qtype, decls)
    case PLambda(_, _, _, _) => e
  }

  /** `staysSameAfterSubstitution(m)`. */
  predicate StaysSame(e: PExp, m: SubstMap) {
    JEquals(e, Substitute(e, m))
  }

  /** `substitute(current, replacement)`: substitution under the one-entry map. */
  function SubstituteOne(e: PExp, current: PExp, replacement: PExp): PExp {
    Substitute(e, [(current, replacement)])
  }

  /** `staysSameAfterSubstitution(current, repl)`. */
  predicate StaysSameOne(e: PExp, current: PExp, replacement: PExp) {
    JEquals(e, SubstituteOne(e, current, replacement))
  }

  /** The map `substitute(currents, repl)` fills: every current put to `repl`, in order. */
  function FillMap(m: SubstMap, currents: seq<PExp>, repl: PExp): SubstMap
    decreases |currents|
  {
    if |currents| == 0 then m else FillMap(Put(m, currents[0], repl), currents[1..], repl)
  }

  /** The map `Utils.zip(currents, repls)` builds: the i-th current put to the i-th replacement. */
  function ZipMap(m: SubstMap, currents: seq<PExp>, repls: seq<PExp>): SubstMap
    requires |currents| == |repls|
    decreases |currents|
  {
    if |currents| == 0 then m else ZipMap(Put(m, currents[0], repls[0]), currents[1..], repls[1..])
  }

  /** `substitute(currents, repls)`: the lists must have the same length. */
  function SubstituteZip(e: PExp, currents: seq<PExp>, repls: seq<PExp>): (r: Result<PExp>)
    ensures r.Error? <==> |currents| != |repls|
    ensures r.Error? ==> r.error == IllegalArgument("substitution lists must be the same length")
  {
    if |currents| != |repls| then Error(IllegalArgument("substitution lists must be the same length"))
    else Success(Substitute(e, ZipMap([], currents, repls)))
  }
}

module SubstitutionFacts {
  import opened Wrappers
  import opened JavaLang
  import opened MathTypes
  import opened Terms
  import opened Equality
  import opened EqualityFacts
  import opened SubstMaps
  import opened Substitution

  /** A quantified node is never found in a map, so substitution always descends into its assertion. */
  lemma QuantifiedNeverAKey(e: PExp, m: SubstMap)
    requires e.PQuantified?
    ensures Get(m, e).None?
    ensures Substitute(e, m) == PQuantified(Substitute(e.assertion, m), e.qtype, e.decls)
  {
    forall j | 0 <= j < |m|
      ensures !KeyMatches(e, m[j].0)
    {
      QuantifiedEqualsNothing(e, m[j].0);
    }
  }

  /**
   * A symbol that is not a key keeps its display style, math types and
   * incoming flag, drops its literal flag and qualifier, has every argument
   * substituted, and keeps its quantification unless the map gives a symbol
   * for its nullary prefix form.
   */
  lemma SymbolSubstitution(e: PExp, m: SubstMap)
    requires e.PSymbol? && Get(m, e).None?
    ensures var r := Substitute(e, m);
      && r.PSymbol? && r.style == e.style && r.mathType == e.mathType
      && r.mathTypeValue == e.mathTypeValue && r.incoming == e.incoming
      && !r.literal && r.qualifier == None
      && |r.args| == |e.args| && (forall i :: 0 <= i < |e.args| ==> r.args[i] == Substitute(e.args[i], m))
      && (r.quant == e.quant || (|e.args| > 0 && e.style == SPrefix && exists j :: 0 <= j < |m| && m[j].1.PSymbol? && r.quant == m[j].1.quant))
      && (e.style == SOutfix ==> r.name == e.lprint + "..." + e.rprint && r.lprint == e.lprint && r.rprint == e.rprint)
      && (e.style != SOutfix ==> r.name == SubstituteNamedComponents(e.name, m) && r.lprint == r.name && r.rprint == r.name)
  {
  }

  /**
   * An application that is not a key has its function portion and every
   * argument substituted and keeps its style, classification and vc
   * information; the bracket flag is reset.
   */
  lemma ApplySubstitution(e: PExp, m: SubstMap)
    requires e.PApply? && Get(m, e).None?
    ensures var r := Substitute(e, m);
      && r.PApply? && r.fn == Substitute(e.fn, m) && r.appStyle == e.appStyle
      && r.appType == e.appType && r.vcInfo == e.vcInfo && !r.bracket
      && |r.args| == |e.args| && forall i :: 0 <= i < |e.args| ==> r.args[i] == Substitute(e.args[i], m)
  {
  }

  lemma {:induction false} FlattenOfPlain(xs: seq<PExp>)
    requires forall i :: 0 <= i < |xs| ==> !xs[i].PSegments?
    ensures Flatten(xs) == xs
  {
    if |xs| > 0 {
      FlattenOfPlain(xs[1..]);
    }
  }

  lemma {:induction false} FlattenIsFlat(xs: seq<PExp>)
    requires forall i :: 0 <= i < |xs| ==> xs[i].PSegments? ==> forall j :: 0 <= j < |xs[i].segs| ==> !xs[i].segs[j].PSegments?
    ensures forall k :: 0 <= k < |Flatten(xs)| ==> !Flatten(xs)[k].PSegments?
  {
    if |xs| > 0 {
      FlattenIsFlat(xs[1..]);
    }
  }

  /**
   * Segments that are not a key have each segment substituted; a segment
   * that became segments is spliced in, so when no segment becomes nested
   * segments the result holds no segments inside it, and when none becomes
   * segments at all the result has one segment per original.
   */
  lemma SegmentsSubstitution(e: PExp, m: SubstMap)
    requires e.PSegments? && Get(m, e).None?
    ensures var subs := seq(|e.segs|, i requires 0 <= i < |e.segs| => Substitute(e.segs[i], m));
      && Substitute(e, m).PSegments?
      && Substitute(e, m).segs == Flatten(subs)
      && ((forall i :: 0 <= i < |subs| ==> subs[i].PSegments? ==> forall j :: 0 <= j < |subs[i].segs| ==> !subs[i].segs[j].PSegments?)
          ==> forall k :: 0 <= k < |Substitute(e, m).segs| ==> !Substitute(e, m).segs[k].PSegments?)
      && ((forall i :: 0 <= i < |subs| ==> !subs[i].PSegments?) ==> Substitute(e, m).segs == subs)
  {
    var subs := seq(|e.segs|, i requires 0 <= i < |e.segs| => Substitute(e.segs[i], m));
    if forall i :: 0 <= i < |subs| ==> subs[i].PSegments? ==> forall j :: 0 <= j < |subs[i].segs| ==> !subs[i].segs[j].PSegments? {
      FlattenIsFlat(subs);
    }
    if forall i :: 0 <= i < |subs| ==> !subs[i].PSegments? {
      FlattenOfPlain(subs);
    }
  }

  /** A literal symbol never stays the same under a substitution that does not replace it outright. */
  lemma LiteralNeverStaysSame(e: PExp, m: SubstMap)
    requires e.PSymbol? && e.literal && Get(m, e).None?
    ensures !StaysSame(e, m)
  {
  }

  /**
   * The terms that substitution rebuilds exactly: symbols whose prints are
   * their name, that are neither literal, qualified nor outfix and whose
   * name does not end in a dot; applications not built with brackets;
   * segments of such terms whose type is the last segment's.
   */
  predicate Plain(e: PExp)
    decreases Depth(e)
  {
    DepthOfChildren(e);
    match e
    case PSymbol(name, lprint, rprint, qualifier, args, literal, _, _, style, _, _) =>
      lprint == name && rprint == name && qualifier == None && !literal && style != SOutfix
      && (|name| == 0 || name[|name| - 1] != '.')
      && forall i :: 0 <= i < |args| ==> Plain(args[i])
    case PApply(fn, args, _, bracket, _, _) =>
      !bracket && Plain(fn) && forall i :: 0 <= i < |args| ==> Plain(args[i])
    case PSegments(segs, segType) =>
      |segs| > 0 && segType == MathTypeOf(segs[|segs| - 1])
      && forall i :: 0 <= i < |segs| ==> Plain(segs[i]) && !segs[i].PSegments?
    case PQuantified(assertion, _, _) => Plain(assertion)
    case PLambda(_, _, _, _) => true
  }

  lemma RenameWithEmptyMap(cs: seq<string>)
    ensures RenameComponents(cs, []) == cs
  {
  }

  /** Substituting with the empty map rebuilds a plain term exactly. */
  lemma {:induction false} SubstituteEmptyIdentity(e: PExp)
    requires Plain(e)
    ensures Substitute(e, []) == e
    decreases Depth(e), 1
  {
    match e
    case PSymbol(_, _, _, _, _, _, _, _, _, _, _) => SymbolSubstituteEmpty(e);
    case PApply(_, _, _, _, _, _) => ApplySubstituteEmpty(e);
    case PSegments(_, _) => SegmentsSubstituteEmpty(e);
    case PQuantified(assertion, _, _) =>
      DepthOfChildren(e);
      SubstituteEmptyIdentity(assertion);
    case PLambda(_, _, _, _) =>
  }

  lemma {:induction false} SymbolSubstituteEmpty(e: PExp)
    requires Plain(e) && e.PSymbol?
    ensures Substitute(e, []) == e
    decreases Depth(e), 0
  {
    DepthOfChildren(e);
    var name, args := e.name, e.args;
    forall i | 0 <= i < |args|
      ensures Substitute(args[i], []) == args[i]
    {
      SubstituteEmptyIdentity(args[i]);
    }
    if '.' in name && !Contains(name, "...") {
      SplitOnDotJoin(name);
    }
    assert SubstituteNamedComponents(name, []) == name;
    var newArgs := seq(|args|, i requires 0 <= i < |args| => Substitute(args[i], []));
    assert newArgs == args;
  }

  lemma {:induction false} ApplySubstituteEmpty(e: PExp)
    requires Plain(e) && e.PApply?
    ensures Substitute(e, []) == e
    decreases Depth(e), 0
  {
    DepthOfChildren(e);
    var args := e.args;
    SubstituteEmptyIdentity(e.fn);
    forall i | 0 <= i < |args|
      ensures Substitute(args[i], []) == args[i]
    {
      SubstituteEmptyIdentity(args[i]);
    }
    var newArgs := seq(|args|, i requires 0 <= i < |args| => Substitute(args[i], []));
    assert newArgs == args;
  }

  lemma {:induction false} SegmentsSubstituteEmpty(e: PExp)
    requires Plain(e) && e.PSegments?
    ensures Substitute(e, []) == e
    decreases Depth(e), 0
  {
    DepthOfChildren(e);
    var segs := e.segs;
    forall i | 0 <= i < |segs|
      ensures Substitute(segs[i], []) == segs[i]
    {
      SubstituteEmptyIdentity(segs[i]);
    }
    var subs := seq(|segs|, i requires 0 <= i < |segs| => Substitute(segs[i], []));
    assert subs == segs;
    FlattenOfPlain(subs);
  }

  /** A plain term stays the same under the empty map exactly when it holds no quantified node. */
  lemma StaysSameUnderEmptyMap(e: PExp)
    requires Plain(e)
    ensures StaysSame(e, []) <==> QuantifierFree(e)
  {
    SubstituteEmptyIdentity(e);
    EqualsReflexive(e);
  }

  /** `substitute(current, replacement)` applied to `current` itself gives `replacement`. */
  lemma SubstituteOneOnItself(current: PExp, replacement: PExp)
    requires current.PSymbol? || current.PApply? || current.PSegments?
    requires QuantifierFree(current)
    ensures SubstituteOne(current, current, replacement) == replacement
  {
    EqualsReflexive(current);
    assert KeyMatches(current, [(current, replacement)][0].0);
  }

  lemma PutKeepsFound(m: SubstMap, key: PExp, v: PExp, k: PExp)
    requires FindKey(m, k).Some?
    ensures FindKey(Put(m, key, v), k).Some?
  {
    FindKeyAppend(m, (key, v), k);
    if FindKey(m, key).Some? {
      FindKeyNewValue(m, FindKey(m, key).value, v, k);
    }
  }

  /** Every value of the map `substitute(currents, repl)` builds is `repl`. */
  lemma {:induction false} FillMapValues(m: SubstMap, currents: seq<PExp>, repl: PExp)
    requires forall j :: 0 <= j < |m| ==> m[j].1 == repl
    ensures forall j :: 0 <= j < |FillMap(m, currents, repl)| ==> FillMap(m, currents, repl)[j].1 == repl
    decreases |currents|
  {
    if |currents| > 0 {
      var m' := Put(m, currents[0], repl);
      assert forall j :: 0 <= j < |m'| ==> m'[j].1 == repl;
      FillMapValues(m', currents[1..], repl);
    }
  }

  /** Every key of the map `substitute(currents, repl)` builds is one of the currents. */
  lemma {:induction false} FillMapKeys(m: SubstMap, currents: seq<PExp>, repl: PExp)
    ensures forall j :: 0 <= j < |FillMap(m, currents, repl)| ==>
      FillMap(m, currents, repl)[j].0 in currents || FillMap(m, currents, repl)[j].0 in Keys(m)
    decreases |currents|
  {
    if |currents| > 0 {
      var c := currents[0];
      var m' := Put(m, c, repl);
      FillMapKeys(m', currents[1..], repl);
      var r := FillMap(m', currents[1..], repl);
      assert r == FillMap(m, currents, repl);
      forall j | 0 <= j < |r|
        ensures r[j].0 in currents || r[j].0 in Keys(m)
      {
        if r[j].0 !in currents[1..] {
          var jj :| 0 <= jj < |m'| && m'[jj].0 == r[j].0;
          if jj >= |m| {
            assert m' == m + [(c, repl)];
          } else {
            assert m[jj].0 == r[j].0;
          }
        }
      }
    }
  }

  /** Every key found before the currents are put is still found after. */
  lemma {:induction false} FillMapKeepsFound(m: SubstMap, currents: seq<PExp>, repl: PExp, k: PExp)
    requires FindKey(m, k).Some?
    ensures FindKey(FillMap(m, currents, repl), k).Some?
    decreases |currents|
  {
    if |currents| > 0 {
      PutKeepsFound(m, currents[0], repl, k);
      FillMapKeepsFound(Put(m, currents[0], repl), currents[1..], repl, k);
    }
  }

  /** `substitute(currents, repl)` maps every current whose `equals` is reflexive to `repl`. */
  lemma {:induction false} FillMapMapsCurrents(currents: seq<PExp>, repl: PExp, i: nat)
    requires i < |currents| && QuantifierFree(currents[i])
    ensures Get(FillMap([], currents, repl), currents[i]) == Some(repl)
  {
    FillMapValues([], currents, repl);
    FillMapFindsFrom([], currents, repl, i);
  }

  lemma {:induction false} FillMapFindsFrom(m: SubstMap, currents: seq<PExp>, repl: PExp, i: nat)
    requires i < |currents| && QuantifierFree(currents[i])
    ensures FindKey(FillMap(m, currents, repl), currents[i]).Some?
    decreases |currents|
  {
    var m' := Put(m, currents[0], repl);
    if i == 0 {
      PutThenGet(m, currents[0], repl);
      FillMapKeepsFound(m', currents[1..], repl, currents[0]);
    } else {
      assert currents[i] == currents[1..][i - 1];
      FillMapFindsFrom(m', currents[1..], repl, i - 1);
    }
  }

  /** `Utils.zip(currents, repls)` holds no more entries than currents, each key a current and each value a replacement. */
  lemma {:induction false} ZipMapFacts(m: SubstMap, currents: seq<PExp>, repls: seq<PExp>)
    requires |currents| == |repls|
    ensures var r := ZipMap(m, currents, repls);
      && |r| <= |m| + |currents|
      && (forall j :: 0 <= j < |r| ==> r[j].0 in currents || r[j].0 in Keys(m))
      && (forall j :: 0 <= j < |r| ==> r[j].1 in repls || exists i :: 0 <= i < |m| && r[j].1 == m[i].1)
    decreases |currents|
  {
    if |currents| > 0 {
      var m' := Put(m, currents[0], repls[0]);
      ZipMapFacts(m', currents[1..], repls[1..]);
      var r := ZipMap(m', currents[1..], repls[1..]);
      forall j | 0 <= j < |r|
        ensures (r[j].0 in currents || r[j].0 in Keys(m))
             && (r[j].1 in repls || exists i :: 0 <= i < |m| && r[j].1 == m[i].1)
      {
        if r[j].0 !in currents[1..] {
          var jj :| 0 <= jj < |m'| && m'[jj].0 == r[j].0;
          if jj >= |m| {
            assert m' == m + [(currents[0], repls[0])];
          } else {
            assert m[jj].0 == r[j].0;
          }
        }
        if r[j].1 !in repls[1..] {
          var ii :| 0 <= ii < |m'| && r[j].1 == m'[ii].1;
          match FindKey(m, currents[0])
          case None =>
            if ii >= |m| {
              assert m' == m + [(currents[0], repls[0])];
            } else {
              assert m'[ii] == m[ii];
            }
          case Some(p) =>
            if ii != p {
              assert m'[ii] == m[ii];
            }
        }
      }
    }
  }

  /** Does the entry rename dotted components, that is, does it map a symbol to a symbol? */
  predicate Renames(entry: (PExp, PExp)) {
    entry.0.PSymbol? && entry.1.PSymbol?
  }

  /** What one entry of the component loop does to the components. */
  function RenameStep(cs: seq<string>, entry: (PExp, PExp)): seq<string> {
    if Renames(entry) then ReplaceAll(cs, entry.0.name, entry.1.name) else cs
  }

  /** Two renamings commute when neither's key is the other's key, nor a name the other introduces. */
  lemma ReplaceAllCommute(cs: seq<string>, x: string, y: string, u: string, v: string)
    requires x != u && y != u && v != x
    ensures ReplaceAll(ReplaceAll(cs, x, y), u, v) == ReplaceAll(ReplaceAll(cs, u, v), x, y)
  {
  }

  /**
   * The component loop does not depend on the order of two neighbouring
   * renaming entries when neither's key name is the other's key name or the
   * name the other renames to. Swaps of neighbours reach every order, so
   * under that condition any iteration order of a `HashMap` renames alike.
   */
  lemma {:induction false} RenameSwap(cs: seq<string>, m: SubstMap, k: nat)
    requires k + 1 < |m|
    requires Renames(m[k]) && Renames(m[k + 1]) ==>
      m[k].0.name != m[k + 1].0.name && m[k].1.name != m[k + 1].0.name && m[k + 1].1.name != m[k].0.name
    ensures RenameComponents(cs, m) == RenameComponents(cs, m[..k] + [m[k + 1], m[k]] + m[k + 2..])
    decreases k
  {
    var swapped := m[..k] + [m[k + 1], m[k]] + m[k + 2..];
    assert RenameComponents(cs, m) == RenameComponents(RenameStep(cs, m[0]), m[1..]);
    assert RenameComponents(cs, swapped) == RenameComponents(RenameStep(cs, swapped[0]), swapped[1..]);
    if k == 0 {
      assert swapped[0] == m[1] && swapped[1..][0] == m[0] && swapped[1..][1..] == m[2..] && m[1..][1..] == m[2..];
      var both := RenameStep(RenameStep(cs, m[0]), m[1]);
      assert RenameComponents(RenameStep(cs, m[0]), m[1..]) == RenameComponents(both, m[2..]);
      assert RenameComponents(RenameStep(cs, m[1]), swapped[1..]) == RenameComponents(RenameStep(RenameStep(cs, m[1]), m[0]), m[2..]);
      if Renames(m[0]) && Renames(m[1]) {
        ReplaceAllCommute(cs, m[0].0.name, m[0].1.name, m[1].0.name, m[1].1.name);
      }
    } else {
      assert swapped[0] == m[0];
      assert swapped[1..] == m[1..][..k - 1] + [m[1..][k], m[1..][k - 1]] + m[1..][k + 1..];
      RenameSwap(RenameStep(cs, m[0]), m[1..], k - 1);
    }
  }

  /** A dotted name (without "...") has a component equal to the key name of a one-entry symbol-to-symbol map renamed to the value's name. */
  lemma NamedComponentRenamed(name: string, key: PExp, value: PExp, i: nat)
    requires '.' in name && !Contains(name, "...")
    requires key.PSymbol? && value.PSymbol?
    requires i < |SplitOnDot(name)| && SplitOnDot(name)[i] == key.name
    ensures SubstituteNamedComponents(name, [(key, value)]) == Join(ReplaceAll(SplitOnDot(name), key.name, value.name), ".")
    ensures ReplaceAll(SplitOnDot(name), key.name, value.name)[i] == value.name
  {
    var cs := SplitOnDot(name);
    assert [(key, value)][1..] == [];
    assert RenameComponents(cs, [(key, value)]) == RenameComponents(ReplaceAll(cs, key.name, value.name), []);
  }
}
