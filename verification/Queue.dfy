/**
  The array queue: `items[0]` is the newest element and `items[size - 1]` the oldest. An absent
  element stands for a NULL pointer; `alloc` says whether memory can be had. The operations that accept
  a NULL queue are static.
 */
module Queue {
  import opened Wrappers

  function Reversed<T>(s: seq<T>): (r: seq<T>)
    ensures |r| == |s| && forall j :: 0 <= j < |s| ==> r[j] == s[|s| - 1 - j]
  {
    seq(|s|, j requires 0 <= j < |s| => s[|s| - 1 - j])
  }

  const QUEUE_BASE_SIZE: nat := 128

  class Queue<T> {
    var items: array<Option<T>>
    var size: nat
    var capacity: nat
    ghost var contents: seq<T>  // oldest first

    ghost predicate Valid()
      reads this, items
    {
      capacity >= 1 && items.Length == capacity && size <= capacity && size == |contents| &&
      forall j :: 0 <= j < size ==> items[j] == Some(contents[size - 1 - j])
    }

    constructor (capacity: nat)
      requires capacity >= 1
      ensures Valid() && contents == [] && fresh(items) && this.capacity == capacity
    {
      size := 0;
      this.capacity := capacity;
      items := new Option<T>[capacity](_ => None);
      contents := [];
    }

    static method Size(queue: Queue?<T>) returns (n: nat)
      requires queue != null ==> queue.Valid()
      ensures n == if queue == null then 0 else |queue.contents|
    {
      if queue == null {
        return 0;
      }
      n := queue.size;
    }

    /** Appends an element. Nothing happens if it is absent, or if a full queue cannot grow. */
    static method Push(queue: Queue?<T>, item: Option<T>, alloc: bool) returns (ok: bool)
      requires queue != null ==> queue.Valid()
      modifies if queue == null then {} else {queue, queue.items}
      ensures ok == (queue != null && item.Some? && (old(queue.size < queue.capacity) || alloc))
      ensures queue != null ==> queue.Valid() && (queue.items == old(queue.items) || fresh(queue.items))
      ensures queue != null ==>
        queue.contents == if ok then old(queue.contents) + [item.value] else old(queue.contents)
      ensures queue != null ==>
        queue.capacity == old(queue.capacity) * if ok && old(queue.size >= queue.capacity) then 2 else 1
    {
      if queue == null || item.None? {
        return false;
      }
      if queue.size >= queue.capacity {
        var grown := Resize(queue, queue.capacity * 2, alloc);
        if !grown {
          return false;
        }
      } else if queue.size == 0 {
        queue.size := 1;
        queue.items[0] := item;
        queue.contents := [item.value];
        return true;
      }
      queue.ShiftUp();
      queue.items[0] := item;
      queue.size := queue.size + 1;
      queue.contents := queue.contents + [item.value];
      return true;
    }

    /** Moves every element one place up, the last one into the first free place. */
    method ShiftUp()
      requires size < items.Length
      modifies items
      ensures forall j :: 1 <= j <= size ==> items[j] == old(items[j - 1])
      ensures items[0] == old(items[0])
    {
      var last := items[0];
      for i := 1 to size + 1
        invariant items[0] == old(items[0]) && last == old(items[i - 1])
        invariant forall j :: 1 <= j < i ==> items[j] == old(items[j - 1])
        invariant forall j :: i <= j < items.Length ==> items[j] == old(items[j])
      {
        var next := items[i];
        items[i] := last;
        last := next;
      }
    }

    /** The oldest element, or nothing. */
    method Top() returns (item: Option<T>)
      requires Valid()
      ensures item == if contents == [] then None else Some(contents[0])
    {
      if size != 0 {
        item := items[size - 1];
      } else {
        item := None;
      }
    }

    /** Removes the oldest element. A shrink that fails is ignored. */
    method Pop(alloc: bool) returns (ok: bool)
      requires Valid()
      modifies this, items
      ensures Valid() && (items == old(items) || fresh(items))
      ensures ok == (old(contents) != [])
      ensures contents == if ok then old(contents)[1..] else []
      ensures capacity == if ok && alloc && |contents| < old(capacity) / 2 then old(capacity) / 2 else old(capacity)
    {
      if size == 0 {
        return false;
      }
      size := size - 1;
      items[size] := None;
      contents := contents[1..];
      if size < capacity / 2 {
        var _ := Resize(this, capacity / 2, alloc);
      }
      return true;
    }

    /** `realloc` keeps what fits. Elements are lost only if the new capacity is below the size. */
    static method Resize(queue: Queue?<T>, newCapacity: nat, alloc: bool) returns (ok: bool)
      requires newCapacity >= 1 && (queue != null ==> queue.Valid())
      modifies queue
      ensures ok == (queue != null && alloc)
      ensures queue != null ==> queue.Valid()
      ensures queue != null && !ok ==> unchanged(queue)
      ensures ok ==> fresh(queue.items) && queue.capacity == newCapacity
      ensures ok ==>
        var n := |old(queue.contents)|;
        queue.contents == if n <= newCapacity then old(queue.contents) else old(queue.contents)[n - newCapacity..]
    {
      if queue == null || !alloc {
        return false;
      }
      var items := new Option<T>[newCapacity](j => None);
      var kept := if queue.size < newCapacity then queue.size else newCapacity;
      forall j | 0 <= j < kept {
        items[j] := queue.items[j];
      }
      queue.capacity := newCapacity;
      queue.items := items;
      if queue.size > queue.capacity {
        queue.contents := queue.contents[queue.size - queue.capacity..];
        queue.size := queue.capacity;
      }
      return true;
    }

    /** Hands every element to the deallocator, newest first. */
    static method Free(queue: Queue?<T>) returns (freed: seq<T>)
      requires queue != null ==> queue.Valid()
      ensures freed == if queue == null then [] else Reversed(queue.contents)
    {
      freed := [];
      if queue == null {
        return;
      }
      for i := 0 to queue.size
        invariant freed == Reversed(queue.contents)[..i]
      {
        if queue.items[i].Some? {
          freed := freed + [queue.items[i].value];
        }
      }
    }
  }

  /** Walks over an unmodified queue, newest element first. */
  class QueueIterator<T> {
    const queue: Queue<T>
    var index: nat

    constructor (queue: Queue<T>)
      ensures this.queue == queue && index == 0
    {
      this.queue := queue;
      index := 0;
    }

    /** A NULL or empty queue has no iterator. */
    static method Create(queue: Queue?<T>, alloc: bool) returns (it: QueueIterator?<T>)
      requires queue != null ==> queue.Valid()
      ensures it == null <==> queue == null || queue.contents == [] || !alloc
      ensures it != null ==> fresh(it) && it.queue == queue && it.index == 0
    {
      if queue == null || queue.size == 0 {
        return null;
      }
      if !alloc {
        return null;
      }
      it := new QueueIterator<T>(queue);
    }

    static method HasNext(it: QueueIterator?<T>) returns (b: bool)
      requires it != null ==> it.queue.Valid()
      ensures b <==> it != null && it.index < |it.queue.contents|
    {
      if it == null {
        return false;
      }
      b := it.index < it.queue.size;
    }

    static method Next(it: QueueIterator?<T>) returns (item: Option<T>)
      requires it != null ==> it.queue.Valid()
      modifies it
      ensures it == null ==> item == None
      ensures it != null ==>
        var more := old(it.index) < |it.queue.contents|;
        item == (if more then Some(Reversed(it.queue.contents)[old(it.index)]) else None) &&
        it.index == if more then old(it.index) + 1 else old(it.index)
    {
      var more := HasNext(it);
      if it == null || !more {
        return None;
      }
      item := it.queue.items[it.index];
      it.index := it.index + 1;
    }
  }
}
