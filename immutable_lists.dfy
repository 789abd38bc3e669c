/**
 * `ImmutableListConcatenation`: a list that is the view of two immutable
 * lists one after the other. Every operation answers by index arithmetic on
 * the two parts and builds new views rather than copying elements.
 */
module ImmutableLists {
  import opened Wrappers

  /**
   * An immutable list: an array-backed list of elements, or the
   * concatenation view of two lists.
   */
  datatype ImmutableList<E> =
    | Flat(items: seq<E>)
    | Concatenation(first: ImmutableList<E>, second: ImmutableList<E>)

  /**
   * `iterator`: a chaining iterator that runs through the first list and
   * then the second, as the sequence of the elements it yields.
   */
  function Iterate<E>(l: ImmutableList<E>): seq<E> {
    match l
    case Flat(items) => items
    case Concatenation(first, second) => Iterate(first) + Iterate(second)
  }

  /**
   * `size`: a concatenation's size is the sum of its parts' sizes, as its
   * constructor records; it is the number of elements the iterator yields.
   */
  function Size<E>(l: ImmutableList<E>): (r: nat)
    ensures r == |Iterate(l)|
  {
    match l
    case Flat(items) => |items|
    case Concatenation(first, second) => Size(first) + Size(second)
  }

  /**
   * `get`: an index before the first list's end is looked up in the first
   * list, any other one in the second, shifted. The array-backed list
   * refuses an index out of its bounds, so `get(i)` succeeds exactly on the
   * list's indices, with the element the iterator yields at i.
   */
  function Get<E>(l: ImmutableList<E>, index: int): (r: Result<E>)
    ensures r.Success? <==> 0 <= index < |Iterate(l)|
    ensures r.Success? ==> r.value == Iterate(l)[index]
    ensures r.Error? ==> r.error == IndexOutOfBounds
  {
    match l
    case Flat(items) => if 0 <= index < |items| then Success(items[index]) else Error(IndexOutOfBounds)
    case Concatenation(first, second) =>
      if index < Size(first) then Get(first, index) else Get(second, index - Size(first))
  }

  /**
   * `head`: up to the first list's end it is the first list's head;
   * beyond, a new concatenation of the first list with the second's head.
   * It succeeds for 0 ≤ length ≤ size, with the first `length` elements.
   */
  function Head<E>(l: ImmutableList<E>, length: int): (r: Result<ImmutableList<E>>)
    ensures r.Success? <==> 0 <= length <= |Iterate(l)|
    ensures r.Success? ==> Iterate(r.value) == Iterate(l)[..length]
    ensures r.Error? ==> r.error == IndexOutOfBounds
  {
    match l
    case Flat(items) => if 0 <= length <= |items| then Success(Flat(items[..length])) else Error(IndexOutOfBounds)
    case Concatenation(first, second) =>
      if length <= Size(first) then
        var h := Head(first, length);
        assert h.Success? ==> (Iterate(first) + Iterate(second))[..length] == Iterate(first)[..length];
        h
      else
        var h := Head(second, length - Size(first));
        assert h.Success? ==>
          (Iterate(first) + Iterate(second))[..length] == Iterate(first) + Iterate(second)[..length - Size(first)];
        if h.Error? then Error(h.error) else Success(Concatenation(first, h.value))
  }

  /**
   * `tail`: a start inside the first list gives a new concatenation of the
   * first list's tail with the whole second list; any other start is the
   * second list's tail, shifted. It succeeds for 0 ≤ startIndex ≤ size,
   * with the elements from startIndex on.
   */
  function Tail<E>(l: ImmutableList<E>, startIndex: int): (r: Result<ImmutableList<E>>)
    ensures r.Success? <==> 0 <= startIndex <= |Iterate(l)|
    ensures r.Success? ==> Iterate(r.value) == Iterate(l)[startIndex..]
    ensures r.Error? ==> r.error == IndexOutOfBounds
  {
    match l
    case Flat(items) => if 0 <= startIndex <= |items| then Success(Flat(items[startIndex..])) else Error(IndexOutOfBounds)
    case Concatenation(first, second) =>
      if startIndex < Size(first) then
        var t := Tail(first, startIndex);
        assert t.Success? ==>
          (Iterate(first) + Iterate(second))[startIndex..] == Iterate(first)[startIndex..] + Iterate(second);
        if t.Error? then Error(t.error) else Success(Concatenation(t.value, second))
      else
        var t := Tail(second, startIndex - Size(first));
        assert t.Success? ==>
          (Iterate(first) + Iterate(second))[startIndex..] == Iterate(second)[startIndex - Size(first)..];
        t
  }

  /**
   * `subList`: the head of the tail; it succeeds when the `length` elements
   * from startIndex lie within the list, and yields exactly those.
   */
  function SubList<E>(l: ImmutableList<E>, startIndex: int, length: int): (r: Result<ImmutableList<E>>)
    ensures r.Success? <==> 0 <= startIndex && 0 <= length && startIndex + length <= |Iterate(l)|
    ensures r.Success? ==> Iterate(r.value) == Iterate(l)[startIndex..startIndex + length]
    ensures r.Error? ==> r.error == IndexOutOfBounds
  {
    var t := Tail(l, startIndex);
    if t.Error? then Error(t.error) else Head(t.value, length)
  }
}

module ImmutableListFacts {
  import opened Wrappers
  import opened ImmutableLists

  /** A concatenation yields all of its first list's elements, then all of its second's. */
  lemma ConcatenationElements<E>(a: ImmutableList<E>, b: ImmutableList<E>, i: int)
    ensures 0 <= i < Size(a) ==> Get(Concatenation(a, b), i) == Get(a, i)
    ensures Size(a) <= i ==> Get(Concatenation(a, b), i) == Get(b, i - Size(a))
    ensures Size(Concatenation(a, b)) == Size(a) + Size(b)
  {
  }
}
