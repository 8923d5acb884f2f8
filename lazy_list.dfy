/**
 * `LazyList<T>`: a node with an optional head and an optional zero-argument
 * thunk that builds the next node. The thunks the program creates are of three
 * kinds, represented here by the datatype `Thunk`:
 *   FromSrc(src)      the closure of `from`, which calls `from` again on the same source;
 *   MapT(f, inner)    the closure of `map`, which invokes the mapped node's thunk and maps the result;
 *   FilterT(p, inner) the closure of `filter`, which invokes the filtered node's thunk and filters the result.
 * Nothing is cached: every read of `tail` invokes the thunk again, so what a
 * thunk yields depends on the position its source has reached. The pure
 * functions below take that position as a parameter; the methods read and
 * advance the source and are proved equal to them.
 */
module LazyLists {
  import opened Wrappers
  import opened Sequences
  import opened Sources

  datatype Thunk<!T> =
    | FromSrc(src: Source<T>)
    | MapT(f: T -> T, inner: Thunk<T>)
    | FilterT(p: T -> bool, inner: Thunk<T>)

  datatype Node<!T> = Node(head: Option<T>, thunk: Option<Thunk<T>>)

  /** `new LazyList()`: no head and no thunk, so it yields nothing from any source position. */
  function Empty<T>(): (r: Node<T>)
    ensures forall pos: nat :: PosOk(r, pos) && Elems(r, pos) == []
  {
    Node(None, None)
  }

  /** The source a thunk pulls from when invoked. */
  function Src<T>(t: Thunk<T>): Source<T>
  {
    match t
    case FromSrc(s) => s
    case MapT(_, i) => Src(i)
    case FilterT(_, i) => Src(i)
  }

  function Size<T>(t: Thunk<T>): nat
  {
    match t
    case FromSrc(_) => 0
    case MapT(_, i) => Size(i) + 1
    case FilterT(_, i) => Size(i) + 1
  }

  /** The size of a node's thunk, 0 when it has none. */
  function Extent<T>(n: Node<T>): nat
  {
    if n.thunk.Some? then Size(n.thunk.value) + 1 else 0
  }

  /** The sources that reading the node's tail may advance. */
  function NodeSources<T>(n: Node<T>): set<Source<T>>
  {
    if n.thunk.Some? then {Src(n.thunk.value)} else {}
  }

  /** `pos` is a possible position of the node's source. */
  predicate PosOk<T>(n: Node<T>, pos: nat)
  {
    n.thunk.Some? ==> pos <= |Src(n.thunk.value).data|
  }

  /** The current position of the node's source (0 when it has none). */
  ghost function Pos<T>(n: Node<T>): nat
    reads NodeSources(n)
  {
    if n.thunk.Some? then Src(n.thunk.value).pos else 0
  }

  ghost predicate NodeValid<T>(n: Node<T>)
    reads NodeSources(n)
  {
    n.thunk.Some? ==> Src(n.thunk.value).Valid()
  }

  // ---------------------------------------------------------------------------
  // What a node yields

  /** The elements invoking `t` and then iterating yields, when its source is at `pos`. */
  function ThunkElems<T>(t: Thunk<T>, pos: nat): seq<T>
    requires pos <= |Src(t).data|
  {
    match t
    case FromSrc(s) => s.data[pos..]
    case MapT(f, i) => MapSeq(f, ThunkElems(i, pos))
    case FilterT(p, i) => FilterSeq(p, ThunkElems(i, pos))
  }

  /** The elements iterating from node `n` yields, when its source is at `pos`. */
  function Elems<T>(n: Node<T>, pos: nat): seq<T>
    requires PosOk(n, pos)
  {
    match n.head
    case None => []
    case Some(v) => [v] + (if n.thunk.Some? then ThunkElems(n.thunk.value, pos) else [])
  }

  /** What node `n` yields with its source where it is now. */
  ghost function Yields<T>(n: Node<T>): seq<T>
    reads NodeSources(n)
    requires NodeValid(n)
  {
    Elems(n, Pos(n))
  }

  // ---------------------------------------------------------------------------
  // map: pure, forces nothing

  /**
   * `n.map(f)`: maps the head now and defers the rest to a `MapT` thunk. It
   * takes no source position: building the mapped node pulls nothing.
   */
  function Map<T>(n: Node<T>, f: T -> T): (r: Node<T>)
    ensures n.head.None? ==> r == Empty()
    ensures n.head.Some? ==> r.head == Some(f(n.head.value))
    ensures r.thunk.Some? <==> n.head.Some? && n.thunk.Some?
    ensures r.thunk.Some? ==> Src(r.thunk.value) == Src(n.thunk.value)
  {
    match n.head
    case None => Empty()
    case Some(v) =>
      match n.thunk
      case None => Node(Some(f(v)), None)
      case Some(t) => Node(Some(f(v)), Some(MapT(f, t)))
  }

  // ---------------------------------------------------------------------------
  // Invoking a thunk, and filter, as functions of the source position

  /**
   * Invoking thunk `t` with its source at `pos`: the node built and the new
   * position. The node either has a head and the thunk `t` again, the head
   * having been pulled from the source, or is empty, the source then being
   * pulled to its end.
   */
  function ForceAt<T>(t: Thunk<T>, pos: nat): (r: (Node<T>, nat))
    requires pos <= |Src(t).data|
    ensures pos <= r.1 <= |Src(t).data|
    ensures r.0.head.None? ==> r.0.thunk.None? && r.1 == |Src(t).data|
    ensures r.0.head.Some? ==> r.0.thunk == Some(t) && pos < r.1
    decreases |Src(t).data| - pos, Size(t), 1
  {
    match t
    case FromSrc(s) =>
      if pos < |s.data| then (Node(Some(s.data[pos]), Some(t)), pos + 1) else (Empty(), pos)
    case MapT(f, i) =>
      var (m, q) := ForceAt(i, pos);
      (Map(m, f), q)
    case FilterT(p, i) =>
      var (m, q) := ForceAt(i, pos);
      FilterAt(m, p, q)
  }

  /**
   * `n.filter(p)` with the node's source at `pos`: the node built and the new
   * position. A present head satisfies `p`; rejected heads are skipped by
   * invoking the thunk, so the source may advance during the call, and when
   * nothing is accepted the source is pulled to its end.
   */
  function FilterAt<T>(n: Node<T>, p: T -> bool, pos: nat): (r: (Node<T>, nat))
    requires PosOk(n, pos)
    ensures n.thunk.None? ==> r.1 == pos && r.0.thunk.None?
    ensures n.thunk.Some? ==>
      && pos <= r.1 <= |Src(n.thunk.value).data|
      && (r.0.head.Some? ==> r.0.thunk == Some(FilterT(p, n.thunk.value)))
    ensures r.0.head.None? ==> r.0.thunk.None?
    ensures r.0.head.None? && n.head.Some? && n.thunk.Some? ==> r.1 == |Src(n.thunk.value).data|
    ensures r.0.head.Some? ==> n.head.Some? && p(r.0.head.value)
    decreases if n.thunk.Some? then |Src(n.thunk.value).data| - pos else 0, Extent(n), 0
  {
    match n.head
    case None => (Empty(), pos)
    case Some(v) =>
      match n.thunk
      case None => (if p(v) then Node(Some(v), None) else Empty(), pos)
      case Some(t) =>
        if p(v) then (Node(Some(v), Some(FilterT(p, t))), pos)
        else
          var (m, q) := ForceAt(t, pos);
          FilterAt(m, p, q)
  }

  /**
   * Reading `n.tail` with the node's source at `pos`: a tail exists exactly
   * when there is a thunk, which is then invoked. The tail read either has a
   * head and the node's own thunk again, or is empty with its source pulled
   * to the end; without a thunk the source stays where it is.
   */
  function TailAt<T>(n: Node<T>, pos: nat): (r: (Option<Node<T>>, nat))
    requires PosOk(n, pos)
    ensures r.0.Some? <==> n.thunk.Some?
    ensures n.thunk.None? ==> r.1 == pos
    ensures n.thunk.Some? ==> pos <= r.1 <= |Src(n.thunk.value).data|
    ensures r.0.Some? && r.0.value.head.Some? ==> r.0.value.thunk == n.thunk && pos < r.1
    ensures r.0.Some? && r.0.value.head.None? ==> r.0.value.thunk.None? && r.1 == |Src(n.thunk.value).data|
  {
    match n.thunk
    case None => (None, pos)
    case Some(t) =>
      var (m, q) := ForceAt(t, pos);
      (Some(m), q)
  }

  // ---------------------------------------------------------------------------
  // Lemmas: what the built nodes yield

  /** Mapping a node maps what it yields, element-wise, with the same length and order. */
  lemma MapElems<T>(n: Node<T>, f: T -> T, pos: nat)
    requires PosOk(n, pos)
    ensures PosOk(Map(n, f), pos)
    ensures Elems(Map(n, f), pos) == MapSeq(f, Elems(n, pos))
    ensures n.head.None? ==> Map(n, f) == Empty()
    ensures n.head.Some? && n.thunk.None? ==> Map(n, f) == Node(Some(f(n.head.value)), None)
  {
  }

  /** Invoking a thunk builds a node that yields exactly what the thunk stands for. */
  lemma {:induction false} ForceElems<T>(t: Thunk<T>, pos: nat)
    requires pos <= |Src(t).data|
    ensures var (r, q) := ForceAt(t, pos); PosOk(r, q) && Elems(r, q) == ThunkElems(t, pos)
    decreases |Src(t).data| - pos, Size(t), 1
  {
    match t
    case FromSrc(s) =>
      if pos < |s.data| {
        assert s.data[pos..] == [s.data[pos]] + s.data[pos + 1..];
      }
    case MapT(f, i) =>
      var (m, q) := ForceAt(i, pos);
      ForceElems(i, pos);
      MapElems(m, f, q);
    case FilterT(p, i) =>
      var (m, q) := ForceAt(i, pos);
      ForceElems(i, pos);
      FilterElems(m, p, q);
  }

  /** The node `filter` builds yields exactly the accepted elements, in order. */
  lemma {:induction false} FilterElems<T>(n: Node<T>, p: T -> bool, pos: nat)
    requires PosOk(n, pos)
    ensures var (r, q) := FilterAt(n, p, pos); PosOk(r, q) && Elems(r, q) == FilterSeq(p, Elems(n, pos))
    decreases if n.thunk.Some? then |Src(n.thunk.value).data| - pos else 0, Extent(n), 0
  {
    match n.head
    case None =>
    case Some(v) =>
      match n.thunk
      case None =>
        FilterSeqCons(p, v, []);
      case Some(t) =>
        FilterSeqCons(p, v, ThunkElems(t, pos));
        if !p(v) {
          var (m, q) := ForceAt(t, pos);
          ForceElems(t, pos);
          FilterElems(m, p, q);
        }
  }

  /**
   * The scan of `filter` over a node built by `from`: an accepted head is
   * kept without pulling; otherwise the call pulls up to and including the
   * next accepted element and no further, or the whole source when none is
   * accepted, and every element it pulled past was rejected.
   */
  lemma {:induction false} FilterScan<T>(s: Source<T>, v: T, p: T -> bool, pos: nat)
    requires pos <= |s.data|
    ensures var (r, q) := FilterAt(Node(Some(v), Some(FromSrc(s))), p, pos);
      && (p(v) ==> r.head == Some(v) && q == pos)
      && (!p(v) ==>
        && pos <= q <= |s.data|
        && (r.head.None? ==> q == |s.data|)
        && (r.head.Some? ==> pos < q && r.head == Some(s.data[q - 1]))
        && (forall k :: pos <= k < (if r.head.Some? then q - 1 else q) ==> !p(s.data[k])))
    decreases |s.data| - pos
  {
    if !p(v) && pos < |s.data| {
      var m := Node(Some(s.data[pos]), Some(FromSrc(s)));
      assert ForceAt(FromSrc(s), pos) == (m, pos + 1);
      if !p(s.data[pos]) {
        FilterScan(s, s.data[pos], p, pos + 1);
      }
    }
  }

  /** Reading the tail of a node with a head yields the rest of what the node yields. */
  lemma StepElems<T>(n: Node<T>, pos: nat)
    requires PosOk(n, pos) && n.head.Some?
    ensures var (r, q) := TailAt(n, pos);
      && (r.Some? ==> PosOk(r.value, q))
      && Elems(n, pos) == [n.head.value] + (if r.Some? then Elems(r.value, q) else [])
  {
    if n.thunk.Some? {
      ForceElems(n.thunk.value, pos);
    }
  }

  /**
   * No memoization: a second read of `n.tail` invokes the thunk again and so
   * gives what reading the tail of the first result would, skipping the
   * element the first read produced.
   */
  lemma TailTwice<T>(n: Node<T>, pos: nat)
    requires PosOk(n, pos)
    ensures var (a, q1) := TailAt(n, pos);
      && PosOk(n, q1)
      && (a.Some? && a.value.head.Some? ==>
        && TailAt(n, q1) == TailAt(a.value, q1)
        && Elems(a.value, q1) == ThunkElems(n.thunk.value, pos)
        && q1 > pos)
  {
    if n.thunk.Some? {
      ForceElems(n.thunk.value, pos);
    }
  }

  /**
   * Proof helper, unfolding `Elems` for a node built by `from`.
   * What a node built by `from` yields depends on where its source is: once
   * the source is exhausted, only the node's own head is left.
   */
  lemma FromNodeElems<T>(s: Source<T>, v: T, pos: nat)
    requires pos <= |s.data|
    ensures Elems(Node(Some(v), Some(FromSrc(s))), pos) == [v] + s.data[pos..]
    ensures Elems(Node(Some(v), Some(FromSrc(s))), |s.data|) == [v]
  {
  }

  /** On a node built by `from`, two reads of `tail` pull two successive elements. */
  lemma FromTailTwice<T>(s: Source<T>, v: T, pos: nat)
    requires pos + 2 <= |s.data|
    ensures var n := Node(Some(v), Some(FromSrc(s)));
      var (a, q1) := TailAt(n, pos);
      var (b, q2) := TailAt(n, q1);
      && a == Some(Node(Some(s.data[pos]), Some(FromSrc(s)))) && q1 == pos + 1
      && b == Some(Node(Some(s.data[pos + 1]), Some(FromSrc(s)))) && q2 == pos + 2
  {
  }

  // ---------------------------------------------------------------------------
  // The operations with their effect on the source

  /** `LazyList.from(src)`: pulls exactly one element. */
  method From<T>(src: Source<T>) returns (n: Node<T>)
    requires src.Valid()
    modifies src
    ensures src.Valid()
    ensures (n, src.pos) == ForceAt(FromSrc(src), old(src.pos))
    ensures old(src.pos) == |src.data| ==> n == Empty() && src.pos == old(src.pos)
    ensures old(src.pos) < |src.data| ==>
      n == Node(Some(src.data[old(src.pos)]), Some(FromSrc(src))) && src.pos == old(src.pos) + 1
    ensures Elems(n, src.pos) == old(src.Remaining())
  {
    ForceElems(FromSrc(src), src.pos);
    var r := src.Pull();
    match r
    case Value(v) => n := Node(Some(v), Some(FromSrc(src)));
    case Done => n := Empty();
  }

  /** Invokes thunk `t`: what the closures at src/iterators.ts lines 68, 85 and 100 do when called. */
  method Force<T>(t: Thunk<T>) returns (n: Node<T>)
    requires Src(t).Valid()
    modifies Src(t)
    ensures Src(t).Valid()
    ensures (n, Src(t).pos) == ForceAt(t, old(Src(t).pos))
    decreases |Src(t).data| - Src(t).pos, Size(t), 1
  {
    match t
    case FromSrc(s) =>
      n := From(s);
    case MapT(f, i) =>
      var m := Force(i);
      n := Map(m, f);
    case FilterT(p, i) =>
      var m := Force(i);
      assert m == ForceAt(i, old(Src(t).pos)).0;
      n := Filter(m, p);
  }

  /** `n.filter(p)`, advancing the source past every rejected head it skips. */
  method Filter<T>(n: Node<T>, p: T -> bool) returns (r: Node<T>)
    requires NodeValid(n)
    modifies NodeSources(n)
    ensures NodeValid(n) && NodeSources(r) <= NodeSources(n)
    ensures r == FilterAt(n, p, old(Pos(n))).0 && Pos(n) == FilterAt(n, p, old(Pos(n))).1
    ensures r.head.Some? ==> p(r.head.value)
    decreases if n.thunk.Some? then |Src(n.thunk.value).data| - Src(n.thunk.value).pos else 0, Extent(n), 0
  {
    match n.head
    case None =>
      r := Empty();
    case Some(v) =>
      match n.thunk
      case None =>
        r := if p(v) then Node(Some(v), None) else Empty();
      case Some(t) =>
        if p(v) {
          r := Node(Some(v), Some(FilterT(p, t)));
        } else {
          var m := Force(t);
          assert m == ForceAt(t, old(Src(t).pos)).0;
          r := Filter(m, p);
        }
  }

  /** The `tail` getter: invokes the thunk on every read, with no cache. */
  method Tail<T>(n: Node<T>) returns (r: Option<Node<T>>)
    requires NodeValid(n)
    modifies NodeSources(n)
    ensures NodeValid(n)
    ensures r.Some? ==> NodeSources(r.value) <= NodeSources(n)
    ensures (r, Pos(n)) == TailAt(n, old(Pos(n)))
  {
    match n.thunk
    case None =>
      r := None;
    case Some(t) =>
      var m := Force(t);
      r := Some(m);
  }
}
