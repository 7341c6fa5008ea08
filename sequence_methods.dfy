/** The length, iteration and indexing protocol that the container and the sequence-valued
    extensions take over from the list they wrap. */
module SequenceMethods {
  import opened Wrappers
  import opened Errors

  /** `len(obj)`: the length of the wrapped list. */
  function Len<T>(items: seq<T>): nat {
    |items|
  }

  /** `iter(obj)`: the wrapped list's elements, in their stored order. */
  function Iter<T>(items: seq<T>): seq<T> {
    items
  }

  /** `obj[idx]` with Python's integer indexing: a negative index counts from the end, and
      an index outside the list raises IndexError. */
  function GetItem<T>(items: seq<T>, idx: int): (r: Result<T, Error>)
    ensures r.Success? <==> -|items| <= idx < |items|
    ensures r.Success? && idx >= 0 ==> r.value == items[idx]
    ensures r.Success? && idx < 0 ==> r.value == items[|items| + idx]
    ensures r.Failure? ==> r.error == IndexErr
  {
    if 0 <= idx < |items| then Success(items[idx])
    else if -|items| <= idx < 0 then Success(items[|items| + idx])
    else Failure(IndexErr)
  }

  /** The three methods describe one list: iteration yields `Len` elements, the i-th of them
      is what index i returns, and index i - Len names the same element. */
  lemma DelegateToWrappedList<T>(items: seq<T>)
    ensures |Iter(items)| == Len(items)
    ensures forall i :: 0 <= i < Len(items) ==> GetItem(items, i) == Success(Iter(items)[i])
    ensures forall i :: 0 <= i < Len(items) ==> GetItem(items, i - Len(items)) == GetItem(items, i)
    ensures GetItem(items, Len(items)).Failure? && GetItem(items, -1 - |items|).Failure?
  {
  }
}
