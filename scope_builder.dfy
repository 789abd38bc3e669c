/**
 * `ScopeBuilder`: the mutable scope the populator fills. Its bindings live
 * in an insertion-ordered map from names to entries; it also keeps the list
 * of its child scopes.
 */
module ScopeBuilders {
  import opened Wrappers
  import opened MathTypes
  import opened ModuleIdentifiers

  /**
   * `MathClssftnWrappingSymbol` as the builder makes it: the name, its
   * quantification, its classification, the tree that defined it and the
   * module it belongs to. Classifications are taken to be math types here.
   */
  datatype WrappingSymbol = WrappingSymbol(
    name: string,
    quantification: Quantification,
    classification: MathType,
    definingTree: Option<nat>,
    moduleIdentifier: Option<ModuleIdentifier>)

  /**
   * A `LinkedHashMap` of bindings: the entries by name and the order the
   * names were first put in. Putting a name again replaces its entry and
   * keeps its place.
   */
  datatype BindingTable = BindingTable(entries: map<string, WrappingSymbol>, order: seq<string>)

  /** Each name in the order once, and exactly the names that have entries. */
  ghost predicate WellFormed(t: BindingTable) {
    && (forall i, j :: 0 <= i < j < |t.order| ==> t.order[i] != t.order[j])
    && (forall n :: n in t.entries <==> n in t.order)
  }

  const EMPTY_TABLE: BindingTable := BindingTable(map[], [])

  /** `put`: the new entry under the name; a new name goes last in the order. */
  function Put(t: BindingTable, name: string, entry: WrappingSymbol): (r: BindingTable)
    ensures WellFormed(t) ==> WellFormed(r)
    ensures r.entries == t.entries[name := entry]
  {
    if name in t.entries then BindingTable(t.entries[name := entry], t.order)
    else BindingTable(t.entries[name := entry], t.order + [name])
  }

  class ScopeBuilder {
    const moduleIdentifier: Option<ModuleIdentifier>
    const definingTree: Option<nat>
    var symbols: BindingTable
    var children: seq<ScopeBuilder>

    ghost predicate Valid()
      reads this
    {
      WellFormed(symbols)
    }

    /** A new scope: no bindings and no children. */
    constructor(definingTree: Option<nat>, moduleIdentifier: Option<ModuleIdentifier>)
      ensures Valid()
      ensures this.definingTree == definingTree && this.moduleIdentifier == moduleIdentifier
      ensures symbols == EMPTY_TABLE && children == []
    {
      this.definingTree := definingTree;
      this.moduleIdentifier := moduleIdentifier;
      symbols := EMPTY_TABLE;
      children := [];
    }

    /** `addChild`. */
    method AddChild(b: ScopeBuilder)
      modifies this`children
      ensures children == old(children) + [b]
    {
      children := children + [b];
    }

    /** `getChildren`: a copy of the list; a sequence value, so a caller changing it cannot reach the builder's. */
    method GetChildren() returns (r: seq<ScopeBuilder>)
      ensures r == children
    {
      r := children;
    }

    /** The entry `addBinding` makes; the type value it is given takes no part. */
    function EntryFor(name: string, q: Quantification, definingTree: Option<nat>, classification: MathType): (r: WrappingSymbol)
      ensures r.name == name && r.quantification == q && r.classification == classification
      ensures r.moduleIdentifier == moduleIdentifier
    {
      WrappingSymbol(name, q, classification, definingTree, moduleIdentifier)
    }

    /**
     * `addBinding`: binds the name to a new entry, replacing any earlier
     * one; it never reports a duplicate.
     */
    method AddBinding(name: string, q: Quantification, definingTree: Option<nat>, classification: MathType, typeValue: Option<MathType>)
      returns (entry: WrappingSymbol)
      requires Valid()
      modifies this`symbols
      ensures Valid()
      ensures entry == EntryFor(name, q, definingTree, classification)
      ensures symbols == Put(old(symbols), name, entry)
    {
      entry := WrappingSymbol(name, q, classification, definingTree, moduleIdentifier);
      symbols := Put(symbols, name, entry);
    }

    /** The overload without a type value. */
    method AddQuantifiedBinding(name: string, q: Quantification, definingTree: Option<nat>, classification: MathType)
      returns (entry: WrappingSymbol)
      requires Valid()
      modifies this`symbols
      ensures Valid()
      ensures entry == EntryFor(name, q, definingTree, classification)
      ensures symbols == Put(old(symbols), name, entry)
    {
      entry := AddBinding(name, q, definingTree, classification, None);
    }

    /** The overload without a quantification: `NONE`. */
    method AddValueBinding(name: string, definingTree: Option<nat>, classification: MathType, typeValue: Option<MathType>)
      returns (entry: WrappingSymbol)
      requires Valid()
      modifies this`symbols
      ensures Valid()
      ensures entry == EntryFor(name, QNone, definingTree, classification)
      ensures symbols == Put(old(symbols), name, entry)
    {
      entry := AddBinding(name, QNone, definingTree, classification, typeValue);
    }

    /** The overload with neither: `NONE` and no type value, through the quantified overload. */
    method AddPlainBinding(name: string, definingTree: Option<nat>, classification: MathType)
      returns (entry: WrappingSymbol)
      requires Valid()
      modifies this`symbols
      ensures Valid()
      ensures entry == EntryFor(name, QNone, definingTree, classification)
      ensures symbols == Put(old(symbols), name, entry)
    {
      entry := AddQuantifiedBinding(name, QNone, definingTree, classification);
    }
  }
}

module ScopeBuilderFacts {
  import opened Wrappers
  import opened MathTypes
  import opened ScopeBuilders

  /** After a put, the name finds the new entry and every other name finds what it found before. */
  lemma PutLookup(t: BindingTable, name: string, entry: WrappingSymbol, other: string)
    ensures Put(t, name, entry).entries[name] == entry
    ensures other != name ==> (other in Put(t, name, entry).entries <==> other in t.entries)
    ensures other != name && other in t.entries ==> Put(t, name, entry).entries[other] == t.entries[other]
  {
  }

  /** A name put again keeps its place in the order; a new one is appended after all others. */
  lemma {:induction false} PutOrder(t: BindingTable, name: string, entry: WrappingSymbol)
    requires WellFormed(t)
    ensures name in t.entries ==> Put(t, name, entry).order == t.order
    ensures name !in t.entries ==> Put(t, name, entry).order == t.order + [name]
    ensures |Put(t, name, entry).order| == |Put(t, name, entry).entries|
  {
    OrderCountsEntries(t);
    OrderCountsEntries(Put(t, name, entry));
  }

  /** In a well-formed table, the order lists as many names as there are entries. */
  lemma {:induction false} OrderCountsEntries(t: BindingTable)
    requires WellFormed(t)
    ensures |t.order| == |t.entries|
  {
    DistinctCardinality(t.order);
    assert (set n | n in t.order) == t.entries.Keys;
  }

  lemma {:induction false} DistinctCardinality(s: seq<string>)
    requires forall i, j :: 0 <= i < j < |s| ==> s[i] != s[j]
    ensures |set n | n in s| == |s|
  {
    if |s| > 0 {
      var front := s[..|s| - 1];
      DistinctCardinality(front);
      assert (set n | n in s) == (set n | n in front) + {s[|s| - 1]};
      assert s[|s| - 1] !in front by {
        forall i | 0 <= i < |front|
          ensures front[i] != s[|s| - 1]
        {
          assert front[i] == s[i];
        }
      }
    }
  }

  /** Binding the same name to the same entry twice is binding it once. */
  lemma PutIdempotent(t: BindingTable, name: string, entry: WrappingSymbol)
    ensures Put(Put(t, name, entry), name, entry) == Put(t, name, entry)
  {
  }

  /** Bindings of two different names commute in their entries. */
  lemma PutCommutesOnEntries(t: BindingTable, a: string, ea: WrappingSymbol, b: string, eb: WrappingSymbol)
    requires a != b
    ensures Put(Put(t, a, ea), b, eb).entries == Put(Put(t, b, eb), a, ea).entries
  {
  }
}
