/**
 * `LazyListIterator<T>`: adapts a lazy list to the `next()` done/value
 * protocol by holding the current head and the already built tail node, so
 * it always stays one node ahead of what it has returned.
 */
module LazyListIterators {
  import opened Wrappers
  import opened Sequences
  import opened Sources
  import opened LazyLists

  class LazyListIterator<T> {
    var head: Option<T>
    var tail: Option<Node<T>>
    /** The source of the list the iterator was built over, if that list has a thunk. */
    ghost const origin: Option<Source<T>>

    /** The source that advancing the iterator may pull from. */
    ghost function Footprint(): set<Source<T>>
    {
      if origin.Some? then {origin.value} else {}
    }

    /** Every node the iterator holds pulls from its origin. */
    ghost predicate Valid()
      reads this, Footprint()
    {
      && (origin.Some? ==> origin.value.Valid())
      && (tail.Some? && tail.value.thunk.Some? ==> origin == Some(Src(tail.value.thunk.value)))
    }

    /** Once the iterator is done, its origin has been pulled to its end. */
    ghost predicate Exhausts()
      reads this, Footprint()
    {
      origin.Some? ==>
        var s := origin.value;
        match head
        case None => s.pos == |s.data|
        case Some(_) =>
          && tail.Some?
          && (tail.value.head.Some? ==> tail.value.thunk.Some?)
          && (tail.value.head.None? ==> tail.value.thunk.None? && s.pos == |s.data|)
    }

    /** The values the remaining `next()` calls return, before `done`. */
    ghost function Remaining(): seq<T>
      reads this, Footprint()
      requires Valid()
    {
      match head
      case None => []
      case Some(v) => [v] + (if tail.Some? then Yields(tail.value) else [])
    }

    /** Takes the list's head and reads its tail once. */
    constructor (list: Node<T>)
      requires NodeValid(list)
      modifies NodeSources(list)
      ensures Valid() && Footprint() == NodeSources(list) && NodeValid(list)
      ensures head == list.head
      ensures (tail, Pos(list)) == TailAt(list, old(Pos(list)))
      ensures Remaining() == old(Yields(list))
      ensures list.head.Some? || list.thunk.None? ==> Exhausts()
    {
      ghost var p0 := Pos(list);
      if list.head.Some? {
        StepElems(list, p0);
      }
      var t := Tail(list);
      head := list.head;
      tail := t;
      origin := if list.thunk.Some? then Some(Src(list.thunk.value)) else None;
    }

    /**
     * `next()`: `Done` once the head is absent, changing nothing; otherwise
     * returns the head, moves to the old tail's head and reads the old
     * tail's tail, invoking its thunk once.
     */
    method Next() returns (r: IteratorResult<T>)
      requires Valid()
      modifies this, Footprint()
      ensures Valid()
      ensures old(Exhausts()) ==> Exhausts()
      ensures r.Done? <==> old(head).None?
      ensures r.Done? ==> head == old(head) && tail == old(tail) && unchanged(Footprint())
      ensures r.Value? ==> r.value == old(head).value
      ensures r.Value? && (old(tail).None? || old(tail).value.thunk.None?) ==> unchanged(Footprint())
      ensures r.Value? && old(tail).None? ==> head.None? && tail.None?
      ensures r.Value? && old(tail).Some? ==>
        && head == old(tail).value.head
        && (tail, Pos(old(tail).value)) == TailAt(old(tail).value, old(Pos(tail.value)))
      ensures old(Remaining()) == (if r.Done? then [] else [r.value]) + Remaining()
    {
      if head.None? {
        return Done;
      }
      var value := head.value;
      match tail {
        case None =>
          head := None;
          tail := None;
        case Some(n) =>
          if n.head.Some? {
            StepElems(n, Pos(n));
          }
          head := n.head;
          tail := Tail(n);
      }
      r := Value(value);
    }
  }

  /** A `for ... of` loop over the iterator: collects every value until `done`. */
  method Drain<T>(it: LazyListIterator<T>) returns (ys: seq<T>)
    requires it.Valid()
    modifies it, it.Footprint()
    ensures it.Valid() && it.head.None?
    ensures old(it.Exhausts()) ==> it.Exhausts()
    ensures ys == old(it.Remaining())
  {
    ghost var ex := it.Exhausts();
    ghost var all := it.Remaining();
    ys := [];
    while true
      invariant it.Valid()
      invariant all == ys + it.Remaining()
      invariant ex ==> it.Exhausts()
      decreases |it.Remaining()|
    {
      var r := it.Next();
      if r.Done? {
        break;
      }
      AppendAssoc(ys, [r.value], it.Remaining());
      ys := ys + [r.value];
    }
  }

  /** Iterating a list to completion yields what the list stands for. */
  method ToSeq<T>(list: Node<T>) returns (ys: seq<T>)
    requires NodeValid(list)
    modifies NodeSources(list)
    ensures NodeValid(list)
    ensures ys == old(Yields(list))
    ensures list.head.Some? && list.thunk.Some? ==> Pos(list) == |Src(list.thunk.value).data|
  {
    var it := new LazyListIterator(list);
    ys := Drain(it);
  }

  /** The driver: `LazyList.from(src).map(f)` iterated with `for ... of`. */
  method RunPipeline<T>(src: Source<T>, f: T -> T) returns (ys: seq<T>)
    requires src.Valid()
    modifies src
    ensures src.Valid()
    ensures ys == MapSeq(f, old(src.Remaining()))
  {
    var list := From(src);
    MapElems(list, f, src.pos);
    var mapped := Map(list, f);
    ys := ToSeq(mapped);
  }

  /**
   * Two traversals of one list built by `from`. The first yields the
   * source's remaining elements; because the tail is not cached, the second
   * finds the source exhausted and yields only the list's first element.
   */
  method Retraverse<T>(src: Source<T>) returns (ys: seq<T>, zs: seq<T>)
    requires src.Valid()
    modifies src
    ensures src.Valid() && src.pos == |src.data|
    ensures ys == old(src.Remaining())
    ensures zs == if old(src.Remaining()) == [] then [] else [old(src.Remaining())[0]]
  {
    var list := From(src);
    ys := ToSeq(list);
    if list.head.Some? {
      FromNodeElems(src, list.head.value, src.pos);
    }
    zs := ToSeq(list);
  }
}
