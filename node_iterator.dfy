/**
 * NamedNodeMapIterator: a cursor over the attribute map of an XML node that is
 * at the same time its own Iterable. The map is a possibly absent sequence of
 * items; item(i) answers nothing for an index past the end, as the DOM does.
 */
module NodeIterator {
  import opened Wrappers

  datatype IteratorError =
    | NullList        // next() on an iterator over no map
    | NotImplemented  // remove()

  class NamedNodeMapIterator<T> {
    const list: Option<seq<T>>
    var index: nat  // starts at 0 and only ever moves forward

    constructor(list: Option<seq<T>>)
      ensures this.list == list && index == 0
    {
      this.list := list;
      index := 0;
    }

    /** hasNext: there is a map and the cursor is before its end. */
    predicate HasNext()
      reads this
      ensures HasNext() ==> list.Some? && Item(index).Some?
    {
      list.Some? && index < |list.value|
    }

    /** What item(index) answers: the item at that position, or nothing outside the map. */
    function Item(i: int): (r: Option<T>)
      requires list.Some?
      ensures r.Some? <==> 0 <= i < |list.value|
      ensures r.Some? ==> r.value == list.value[i]
    {
      if 0 <= i < |list.value| then Some(list.value[i]) else None
    }

    /**
     * next: the item under the cursor, moving the cursor on by one. Without a
     * map the cursor still moves before the call on the map fails.
     */
    method Next() returns (r: Result<Option<T>, IteratorError>)
      modifies this
      ensures index == old(index) + 1
      ensures list.None? ==> r == Failure(NullList)
      ensures list.Some? ==> r == Success(Item(old(index)))
    {
      var i := index;
      index := index + 1;
      if list.None? {
        return Failure(NullList);
      }
      return Success(Item(i));
    }

    /** remove: not supported; nothing changes. */
    method Remove() returns (r: Result<(), IteratorError>)
      ensures r == Failure(NotImplemented)
    {
      return Failure(NotImplemented);
    }

    /** iterator: the iterator is its own Iterable, so it hands out itself. */
    method Iterator() returns (r: NamedNodeMapIterator<T>)
      ensures r == this
    {
      return this;
    }
  }

  /**
   * A for-each loop over the iterator: takes items while hasNext holds. It
   * yields the items from the cursor to the end of the map, in order, and
   * leaves the cursor at the end.
   */
  method ForEach<T>(it: NamedNodeMapIterator<T>) returns (items: seq<T>)
    modifies it
    ensures it.list.None? ==> items == [] && it.index == old(it.index)
    ensures it.list.Some? && old(it.index) <= |it.list.value| ==>
              items == it.list.value[old(it.index)..] && it.index == |it.list.value|
    ensures it.list.Some? && old(it.index) > |it.list.value| ==> items == [] && it.index == old(it.index)
    ensures !it.HasNext()
  {
    var source := it.Iterator();
    items := [];
    ghost var start := it.index;
    while source.HasNext()
      invariant source == it
      invariant start <= it.index
      invariant it.list.Some? && start <= |it.list.value| ==>
                  it.index <= |it.list.value| && items == it.list.value[start..it.index]
      invariant (it.list.None? || start > |it.list.value|) ==> items == [] && it.index == start
      decreases if it.list.Some? then |it.list.value| - it.index else 0
    {
      var item := source.Next();
      items := items + [item.value.value];
    }
  }

  /** A fresh iterator yields every item of the map once, in order, and is then exhausted. */
  method FreshTraversal<T>(list: seq<T>) returns (items: seq<T>)
    ensures items == list
  {
    var it := new NamedNodeMapIterator(Some(list));
    items := ForEach(it);
  }

  /**
   * Traversing the same iterator a second time resumes where the first stopped,
   * so the second traversal yields nothing.
   */
  method SecondTraversal<T>(list: seq<T>) returns (first: seq<T>, second: seq<T>)
    ensures first == list && second == []
  {
    var it := new NamedNodeMapIterator(Some(list));
    first := ForEach(it);
    second := ForEach(it);
  }

  /** A traversal begun after k items yields the rest of the map. */
  method ResumedTraversal<T>(list: seq<T>, k: nat) returns (head: seq<T>, rest: seq<T>)
    requires k <= |list|
    ensures head == list[..k] && rest == list[k..]
  {
    var it := new NamedNodeMapIterator(Some(list));
    head := [];
    while |head| < k
      invariant |head| <= k && it.index == |head| && head == list[..|head|]
      invariant it.list == Some(list)
    {
      var item := it.Next();
      head := head + [item.value.value];
    }
    rest := ForEach(it);
  }

  /** An iterator over no map has nothing next, and next fails. */
  method NullTraversal<T>() returns (items: seq<T>, next: Result<Option<T>, IteratorError>)
    ensures items == [] && next == Failure(NullList)
  {
    var it := new NamedNodeMapIterator<T>(None);
    items := ForEach(it);
    next := it.Next();
  }
}
