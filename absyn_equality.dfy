/**
 * Java `equals` on prover terms, and the `HashMap<PExp, PExp>` the
 * substitution operations take, looked up through `hashCode` and `equals`.
 */
module Equality {
  import opened Wrappers
  import opened MathTypes
  import opened Terms

  /**
   * `o.equals(...)` as each subclass defines it, with `a` the receiver:
   * a symbol compares value hash, name, literal and incoming flags, qualifier
   * and arguments (never the quantification); an application compares value
   * hash, function portion and arguments; segments compare pairwise with the
   * OTHER list's segment as receiver; a quantified node compares its
   * assertion with the whole other object.
   */
  predicate JEquals(a: PExp, o: PExp)
    decreases Depth(a) + Depth(o), 1
  {
    DepthOfChildren(a);
    DepthOfChildren(o);
    match a
    case PSymbol(_, _, _, _, _, _, _, _, _, _, _) =>
      o.PSymbol? && ValueHash(o) == ValueHash(a) && a.name == o.name
      && a.literal == o.literal && a.incoming == o.incoming && a.qualifier == o.qualifier
      && PairwiseEqual(a.args, o.args, Depth(a), Depth(o))
    case PApply(_, _, _, _, _, _) =>
      o.PApply? && ValueHash(o) == ValueHash(a) && JEquals(a.fn, o.fn)
      && PairwiseEqual(a.args, o.args, Depth(a), Depth(o))
    case PSegments(_, _) =>
      o.PSegments? && PairwiseEqual(o.segs, a.segs, Depth(o), Depth(a))
    case PQuantified(assertion, _, _) =>
      o.PQuantified? && JEquals(assertion, o)
    case PLambda(_, _, _, _) =>
      o == a
  }

  /**
   * The iterator walk of the `equals` methods: the two lists have the same
   * length and the i-th of `xs`, as receiver, equals the i-th of `ys`.
   * `bx` and `bo` only carry the termination measure of the enclosing call.
   */
  predicate PairwiseEqual(xs: seq<PExp>, ys: seq<PExp>, bx: nat, bo: nat)
    requires forall i :: 0 <= i < |xs| ==> Depth(xs[i]) < bx
    requires forall i :: 0 <= i < |ys| ==> Depth(ys[i]) < bo
    decreases bx + bo, 0
  {
    |xs| == |ys| && forall i :: 0 <= i < |xs| ==> JEquals(xs[i], ys[i])
  }
}

module EqualityFacts {
  import opened Wrappers
  import opened JavaLang
  import opened MathTypes
  import opened Terms
  import opened Equality

  /** Nothing equals a quantified node: its `equals` only ever reaches a non-quantified receiver. */
  lemma {:induction false} NotEqualToQuantified(x: PExp, q: PExp)
    requires q.PQuantified?
    ensures !JEquals(x, q)
    decreases Depth(x)
  {
    if x.PQuantified? {
      DepthOfChildren(x);
      NotEqualToQuantified(x.assertion, q);
    }
  }

  /** A quantified node's `equals` is false for every argument, itself included. */
  lemma QuantifiedEqualsNothing(a: PExp, o: PExp)
    requires a.PQuantified?
    ensures !JEquals(a, o)
  {
    if o.PQuantified? {
      NotEqualToQuantified(a.assertion, o);
    }
  }

  /** Symbol equality ignores the quantification of both symbols. */
  lemma SymbolEqualsIgnoresQuantification(a: PExp, o: PExp, qa: Quantification, qo: Quantification)
    requires a.PSymbol? && o.PSymbol?
    ensures JEquals(a, o) <==> JEquals(a.(quant := qa), o.(quant := qo))
  {
    var a' := a.(quant := qa);
    var o' := o.(quant := qo);
    assert ValueHash(a') == ValueHash(a);
    assert ValueHash(o') == ValueHash(o);
    assert Depth(a') == Depth(a) && Depth(o') == Depth(o);
  }

  /** `hashCode` is consistent with `equals`: equal terms have equal hash codes. */
  lemma {:induction false} EqualsImpliesSameHash(a: PExp, o: PExp)
    requires JEquals(a, o)
    ensures ValueHash(a) == ValueHash(o)
    decreases Depth(a) + Depth(o)
  {
    DepthOfChildren(a);
    DepthOfChildren(o);
    match a
    case PSymbol(_, _, _, _, _, _, _, _, _, _, _) =>
    case PApply(_, _, _, _, _, _) =>
    case PSegments(segs, _) =>
      forall i | 0 <= i < |segs|
        ensures ValueHash(o.segs[i]) == ValueHash(segs[i])
      {
        EqualsImpliesSameHash(o.segs[i], segs[i]);
      }
      var hs := seq(|segs|, i requires 0 <= i < |segs| => ValueHash(segs[i]));
      var ho := seq(|o.segs|, i requires 0 <= i < |o.segs| => ValueHash(o.segs[i]));
      assert hs == ho;
    case PQuantified(_, _, _) =>
      QuantifiedEqualsNothing(a, o);
    case PLambda(_, _, _, _) =>
  }

  /**
   * `PExp.hashCode`: the value hash, a Java `int` that every term `equals`
   * to this one shares.
   */
  function HashCode(e: PExp): (h: int)
    ensures IsInt32(h)
    ensures forall o :: JEquals(e, o) ==> ValueHash(o) == h
  {
    EqualsShareHash(e);
    ValueHash(e)
  }

  lemma EqualsShareHash(e: PExp)
    ensures forall o :: JEquals(e, o) ==> ValueHash(o) == ValueHash(e)
  {
    forall o | JEquals(e, o) {
      EqualsImpliesSameHash(e, o);
    }
  }

  /** `equals` is symmetric. */
  lemma {:induction false} EqualsSymmetric(a: PExp, o: PExp)
    requires JEquals(a, o)
    ensures JEquals(o, a)
    decreases Depth(a) + Depth(o)
  {
    DepthOfChildren(a);
    DepthOfChildren(o);
    match a
    case PSymbol(_, _, _, _, args, _, _, _, _, _, _) =>
      forall i | 0 <= i < |args|
        ensures JEquals(o.args[i], args[i])
      {
        EqualsSymmetric(args[i], o.args[i]);
      }
    case PApply(fn, args, _, _, _, _) =>
      EqualsSymmetric(fn, o.fn);
      forall i | 0 <= i < |args|
        ensures JEquals(o.args[i], args[i])
      {
        EqualsSymmetric(args[i], o.args[i]);
      }
    case PSegments(segs, _) =>
      forall i | 0 <= i < |segs|
        ensures JEquals(segs[i], o.segs[i])
      {
        EqualsSymmetric(o.segs[i], segs[i]);
      }
    case PQuantified(_, _, _) =>
      QuantifiedEqualsNothing(a, o);
    case PLambda(_, _, _, _) =>
  }

  /** The term has no quantified node in any position that `equals` compares. */
  predicate QuantifierFree(e: PExp)
    decreases Depth(e)
  {
    DepthOfChildren(e);
    match e
    case PSymbol(_, _, _, _, args, _, _, _, _, _, _) =>
      forall i :: 0 <= i < |args| ==> QuantifierFree(args[i])
    case PApply(fn, args, _, _, _, _) =>
      QuantifierFree(fn) && forall i :: 0 <= i < |args| ==> QuantifierFree(args[i])
    case PSegments(segs, _) =>
      forall i :: 0 <= i < |segs| ==> QuantifierFree(segs[i])
    case PQuantified(_, _, _) => false
    case PLambda(_, _, _, _) => true
  }

  /** `equals` is reflexive exactly on the terms without quantified nodes. */
  lemma {:induction false} EqualsReflexive(e: PExp)
    ensures JEquals(e, e) <==> QuantifierFree(e)
    decreases Depth(e)
  {
    DepthOfChildren(e);
    match e
    case PSymbol(_, _, _, _, args, _, _, _, _, _, _) =>
      forall i | 0 <= i < |args|
        ensures JEquals(args[i], args[i]) <==> QuantifierFree(args[i])
      {
        EqualsReflexive(args[i]);
      }
    case PApply(fn, args, _, _, _, _) =>
      EqualsReflexive(fn);
      forall i | 0 <= i < |args|
        ensures JEquals(args[i], args[i]) <==> QuantifierFree(args[i])
      {
        EqualsReflexive(args[i]);
      }
    case PSegments(segs, _) =>
      forall i | 0 <= i < |segs|
        ensures JEquals(segs[i], segs[i]) <==> QuantifierFree(segs[i])
      {
        EqualsReflexive(segs[i]);
      }
    case PQuantified(_, _, _) =>
      QuantifiedEqualsNothing(e, e);
    case PLambda(_, _, _, _) =>
  }
}

/**
 * `HashMap<PExp, PExp>` and `LinkedHashMap<PExp, PExp>` as the list of their
 * entries in insertion order, which is a `LinkedHashMap`'s iteration order;
 * a `HashMap` iterates in bucket order instead, which this list does not
 * follow. A lookup finds the entry whose key has the same hash code and is
 * `equals` to the looked-up key, with that key as receiver.
 */
module SubstMaps {
  import opened Wrappers
  import opened Terms
  import opened Equality
  import opened EqualityFacts

  type SubstMap = seq<(PExp, PExp)>

  predicate KeyMatches(key: PExp, stored: PExp) {
    HashCode(key) == HashCode(stored) && JEquals(key, stored)
  }

  /** The first entry whose key matches. */
  function FindKey(m: SubstMap, key: PExp): (r: Option<nat>)
    ensures r.Some? ==> r.value < |m| && KeyMatches(key, m[r.value].0)
    ensures r.Some? ==> forall j {:trigger KeyMatches(key, m[j].0)} :: 0 <= j < r.value ==> !KeyMatches(key, m[j].0)
    ensures r.None? ==> forall j {:trigger KeyMatches(key, m[j].0)} :: 0 <= j < |m| ==> !KeyMatches(key, m[j].0)
  {
    if |m| == 0 then None
    else if KeyMatches(key, m[0].0) then Some(0)
    else match FindKey(m[1..], key)
      case None => None
      case Some(i) => Some(i + 1)
  }

  /** `Map.get`; `containsKey` is `Get(m, key).Some?`. */
  function Get(m: SubstMap, key: PExp): (r: Option<PExp>)
    ensures r.Some? <==> exists j :: 0 <= j < |m| && KeyMatches(key, m[j].0)
    ensures r.Some? ==> exists j :: 0 <= j < |m| && r.value == m[j].1
  {
    match FindKey(m, key)
    case None => None
    case Some(i) => Some(m[i].1)
  }

  /** `Map.put`: a matching entry keeps its key and takes the new value; otherwise the entry goes last. */
  function Put(m: SubstMap, key: PExp, v: PExp): (r: SubstMap)
    ensures |r| == |m| || r == m + [(key, v)]
    ensures forall j :: 0 <= j < |m| ==> r[j].0 == m[j].0
  {
    match FindKey(m, key)
    case None => m + [(key, v)]
    case Some(i) => m[i := (m[i].0, v)]
  }

  function Keys(m: SubstMap): (r: seq<PExp>)
    ensures |r| == |m| && forall j :: 0 <= j < |m| ==> r[j] == m[j].0
  {
    seq(|m|, j requires 0 <= j < |m| => m[j].0)
  }

  lemma {:induction false} FindKeyAppend(m: SubstMap, e: (PExp, PExp), key: PExp)
    ensures FindKey(m + [e], key) ==
      if FindKey(m, key).Some? then FindKey(m, key)
      else if KeyMatches(key, e.0) then Some(|m|) else None
  {
    if |m| > 0 {
      assert (m + [e])[0] == m[0];
      assert (m + [e])[1..] == m[1..] + [e];
      FindKeyAppend(m[1..], e, key);
    }
  }

  lemma {:induction false} FindKeyNewValue(m: SubstMap, i: nat, v: PExp, key: PExp)
    requires i < |m|
    ensures FindKey(m[i := (m[i].0, v)], key) == FindKey(m, key)
  {
    var m' := m[i := (m[i].0, v)];
    assert m'[0].0 == m[0].0;
    if i == 0 {
      assert m'[1..] == m[1..];
    } else {
      assert m'[1..] == m[1..][i - 1 := (m[i].0, v)];
      FindKeyNewValue(m[1..], i - 1, v, key);
    }
  }

  /** After `put(k, v)`, `get(k)` gives v, for any key whose `equals` is reflexive. */
  lemma PutThenGet(m: SubstMap, key: PExp, v: PExp)
    requires QuantifierFree(key)
    ensures Get(Put(m, key, v), key) == Some(v)
  {
    EqualsReflexive(key);
    FindKeyAppend(m, (key, v), key);
    if FindKey(m, key).Some? {
      FindKeyNewValue(m, FindKey(m, key).value, v, key);
    }
  }

  /** A `put` leaves the lookup of every key that does not reach the put entry unchanged. */
  lemma PutKeepsOthers(m: SubstMap, key: PExp, v: PExp, other: PExp)
    requires !KeyMatches(other, key)
    requires FindKey(m, key).Some? ==> FindKey(m, other) != FindKey(m, key)
    ensures Get(Put(m, key, v), other) == Get(m, other)
  {
    FindKeyAppend(m, (key, v), other);
    if FindKey(m, key).Some? {
      FindKeyNewValue(m, FindKey(m, key).value, v, other);
    }
  }
}
