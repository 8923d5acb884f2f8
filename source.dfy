/**
 * The single-pass pull source that `LazyList.from` consumes: in the program a
 * generator, re-obtained as the same iterator object on every `from` call.
 */
module Sources {

  /** The `{ done, value }` result of a pull-iteration step. */
  datatype IteratorResult<T> = Done | Value(value: T)

  /** A finite source: the elements it will produce, and how many it has produced. */
  class Source<T> {
    const data: seq<T>
    var pos: nat

    ghost predicate Valid()
      reads this
    {
      pos <= |data|
    }

    /** The elements the source has not produced yet. */
    ghost function Remaining(): seq<T>
      reads this
      requires Valid()
    {
      data[pos..]
    }

    constructor (data: seq<T>)
      ensures Valid() && this.data == data && pos == 0
    {
      this.data := data;
      pos := 0;
    }

    /** One `next()` call: produces the next element, or `Done` (forever) once exhausted. */
    method Pull() returns (r: IteratorResult<T>)
      requires Valid()
      modifies this`pos
      ensures Valid()
      ensures old(pos) < |data| ==> r == Value(data[old(pos)]) && pos == old(pos) + 1
      ensures old(pos) == |data| ==> r == Done && pos == old(pos)
      ensures old(Remaining()) == (if r.Done? then [] else [r.value]) + Remaining()
    {
      if pos < |data| {
        r := Value(data[pos]);
        pos := pos + 1;
      } else {
        r := Done;
      }
    }
  }
}
