/**
 * `Standard_Array_Realiz`: the runtime realization of a bounded array whose
 * indices run from a lower to an upper bound. The representation is a Java
 * array of entry objects, indexed by the index minus the lower bound; every
 * entry starts as a fresh initial value of the entry type.
 */
module CeramicArrays {
  import opened Wrappers
  import opened JavaLang

  /** An object of the entry type; what its representation holds is not looked into. */
  class Entry {
    var rep: int

    constructor(r: int)
      ensures rep == r
    {
      rep := r;
    }
  }

  /** `Standard_Integer_Realiz.Integer`: a boxed Java `int`. */
  class StdInteger {
    const val: Int32

    constructor(v: Int32)
      ensures val == v
    {
      val := v;
    }
  }

  /** The entry type, as far as the realization uses it: `initialValue` makes a fresh entry with this representation. */
  datatype EntryType = EntryType(initialRep: int)

  /**
   * `RESOLVEBase.swap`, which is not part of this model, as a rule giving
   * the two objects' new representations from their old ones.
   */
  type SwapRule = (int, int) -> (int, int)

  /** The length the representation array is allocated with, in `int` arithmetic. */
  function RepLength(lowerBound: Int32, upperBound: Int32): (r: Int32) {
    Wrap(upperBound - lowerBound + 1)
  }

  /** The array position of an index, in `int` arithmetic. */
  function AdjustedIndex(index: Int32, lowerBound: Int32): (r: Int32) {
    Wrap(index - lowerBound)
  }

  /** `Array_Rep`: the content array, one fresh initial entry per cell. */
  class ArrayRep {
    const content: array<Entry?>

    ghost predicate Valid()
      reads this, content
    {
      forall k :: 0 <= k < content.Length ==> content[k] != null
    }

    /** The constructor's loop: every cell a new initial value of the entry type. */
    constructor(length: nat, t: EntryType)
      ensures fresh(content) && content.Length == length && Valid()
      ensures forall k :: 0 <= k < length ==> fresh(content[k]) && content[k].rep == t.initialRep
      ensures forall j, k :: 0 <= j < k < length ==> content[j] != content[k]
    {
      var a := new Entry?[length];
      content := a;
      new;
      for i := 0 to length
        invariant forall k :: 0 <= k < i ==> a[k] != null && fresh(a[k]) && a[k].rep == t.initialRep
        invariant forall j, k :: 0 <= j < k < i ==> a[j] != a[k]
      {
        var e := new Entry(t.initialRep);
        a[i] := e;
      }
    }
  }

  /** `Ceramic_Array`: an array value, whose representation can be read and replaced. */
  class CeramicArray {
    var rep: ArrayRep

    constructor(r: ArrayRep)
      ensures rep == r
    {
      rep := r;
    }

    /** `getRep`. */
    function GetRep(): ArrayRep
      reads this
    {
      rep
    }

    /** `setRep`. */
    method SetRep(o: ArrayRep)
      modifies this`rep
      ensures rep == o
    {
      rep := o;
    }
  }

  class StandardArrayRealiz {
    const entryType: EntryType
    const lowerBound: Int32
    const upperBound: Int32

    /** The constructor keeps the values of the two bound integers. */
    constructor(t: EntryType, lower: StdInteger, upper: StdInteger)
      ensures entryType == t && lowerBound == lower.val && upperBound == upper.val
    {
      entryType := t;
      lowerBound := lower.val;
      upperBound := upper.val;
    }

    /** `new Array_Rep()`: a negative length throws `NegativeArraySizeException`. */
    method NewArrayRep() returns (r: Result<ArrayRep>)
      ensures r.Error? <==> RepLength(lowerBound, upperBound) < 0
      ensures r.Error? ==> r.error == NegativeArraySize
      ensures r.Success? ==>
        && fresh(r.value) && fresh(r.value.content) && r.value.Valid()
        && r.value.content.Length == RepLength(lowerBound, upperBound)
        && (forall k :: 0 <= k < r.value.content.Length ==> fresh(r.value.content[k]) && r.value.content[k].rep == entryType.initialRep)
        && (forall j, k :: 0 <= j < k < r.value.content.Length ==> r.value.content[j] != r.value.content[k])
    {
      var length := RepLength(lowerBound, upperBound);
      if length < 0 {
        return Error(NegativeArraySize);
      }
      var rep := new ArrayRep(length, entryType);
      r := Success(rep);
    }

    /** `initCeramic_Array`, and `initialValue` of an array, which does the same: a new array with a new representation. */
    method InitCeramicArray() returns (r: Result<CeramicArray>)
      ensures r.Error? <==> RepLength(lowerBound, upperBound) < 0
      ensures r.Error? ==> r.error == NegativeArraySize
      ensures r.Success? ==>
        && fresh(r.value) && fresh(r.value.rep) && fresh(r.value.rep.content) && r.value.rep.Valid()
        && r.value.rep.content.Length == RepLength(lowerBound, upperBound)
        && (forall k :: 0 <= k < r.value.rep.content.Length ==> fresh(r.value.rep.content[k]) && r.value.rep.content[k].rep == entryType.initialRep)
    {
      var rep := NewArrayRep();
      if rep.Error? {
        return Error(rep.error);
      }
      var a := new CeramicArray(rep.value);
      r := Success(a);
    }

    /**
     * `Swap_Entry(A, e, i)`: swaps `e` with the cell at `i` minus the lower
     * bound; an index outside the array throws. Only `e` and that cell
     * change; when `e` is that cell, it keeps the cell's new value.
     */
    method SwapEntry(A: CeramicArray, e: Entry, i: StdInteger, swap: SwapRule) returns (r: Result<()>)
      requires A.rep.Valid()
      modifies e, A.rep.content[..]
      ensures var adj := AdjustedIndex(i.val, lowerBound);
        && (r.Error? <==> !(0 <= adj < A.rep.content.Length))
        && (r.Error? ==>
             && r.error == IndexOutOfBounds && e.rep == old(e.rep)
             && forall k :: 0 <= k < A.rep.content.Length ==> A.rep.content[k].rep == old(A.rep.content[k].rep))
        && (r.Success? ==>
             var cell := A.rep.content[adj];
             var swapped := swap(old(e.rep), old(cell.rep));
             && cell.rep == swapped.1
             && (e != cell ==> e.rep == swapped.0)
             && forall k :: 0 <= k < A.rep.content.Length && A.rep.content[k] != e && A.rep.content[k] != cell ==>
                  A.rep.content[k].rep == old(A.rep.content[k].rep))
    {
      var adj := AdjustedIndex(i.val, lowerBound);
      var temp1 := A.rep.content;
      if !(0 <= adj < temp1.Length) {
        return Error(IndexOutOfBounds);
      }
      var cell := temp1[adj];
      var swapped := swap(e.rep, cell.rep);
      e.rep := swapped.0;
      cell.rep := swapped.1;
      r := Success(());
    }

    /** `getUpper_Bound`: a new integer holding the upper bound. */
    method GetUpperBound() returns (r: StdInteger)
      ensures fresh(r) && r.val == upperBound
    {
      r := new StdInteger(upperBound);
    }

    /** `getLower_Bound`: a new integer holding the lower bound. */
    method GetLowerBound() returns (r: StdInteger)
      ensures fresh(r) && r.val == lowerBound
    {
      r := new StdInteger(lowerBound);
    }

    /** `getEntry`: the entry type. */
    function GetEntry(): EntryType {
      entryType
    }
  }
}

module CeramicArrayFacts {
  import opened JavaLang
  import opened CeramicArrays

  /** Without overflow the array holds one cell per index from the lower bound to the upper bound. */
  lemma LengthCountsIndices(lowerBound: Int32, upperBound: Int32)
    requires IsInt32(upperBound - lowerBound + 1)
    ensures RepLength(lowerBound, upperBound) == upperBound - lowerBound + 1
    ensures RepLength(lowerBound, upperBound) < 0 <==> upperBound < lowerBound - 1
  {
  }

  /** Without overflow an index reaches a cell exactly when it lies between the bounds. */
  lemma IndexInBounds(index: Int32, lowerBound: Int32, upperBound: Int32)
    requires IsInt32(upperBound - lowerBound + 1) && IsInt32(index - lowerBound)
    ensures 0 <= AdjustedIndex(index, lowerBound) < RepLength(lowerBound, upperBound) <==> lowerBound <= index <= upperBound
  {
  }

  /** Bounds spanning all of `int` wrap the length around to zero: no index reaches a cell. */
  lemma FullRangeIsEmpty()
    ensures RepLength(INT_MIN, INT_MAX) == 0
  {
    assert INT_MAX - INT_MIN + 1 == TWO_32;
  }
}
