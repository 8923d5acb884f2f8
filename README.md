# Lazy list over a single-pass source

A model of the lazy list in `src/iterators.ts` of ts-scratch, with proofs about it.

A `LazyList<T>` node holds an optional head and an optional zero-argument thunk that builds the next node. `LazyList.from` turns a pull source (a generator) into a list by pulling one element. Its thunk calls `from` again on the same source. `map` applies its function to the head at once and defers the rest. `filter` keeps an accepted head and defers the rest. On a rejected head it invokes the tail thunk at once and recurses, so the scan to the next accepted element happens inside the `filter` call. `LazyListIterator` adapts a node to the `next()` done/value protocol. It holds the current head and an already built tail node.

How the model is built:

- **Source** (`source.dfy`). The generator is a class `Source` with an immutable `data` sequence and a position `pos`. `Pull` is one `next()` call. It advances `pos` by one, or returns `Done` for ever once `pos` reaches the end.
- **Nodes and thunks** (`lazy_list.dfy`). A node is the datatype `Node(head: Option<T>, thunk: Option<Thunk<T>>)`. The head getter is the field `head`. The three kinds of closure the code creates are defunctionalised:
  - `FromSrc(src)` is the closure of `from`, which captures the source;
  - `MapT(f, inner)` is the closure of `map`, which calls the mapped node's thunk and maps the result;
  - `FilterT(p, inner)` is the closure of `filter`, which does the same and filters the result.
- **Behaviour as functions.** Nothing is cached: the `tail` getter invokes the thunk on every read. So what a node yields depends on where its source has got to. The pure functions `ForceAt`, `FilterAt` and `TailAt` take that position as an argument and return the node built and the new position. `map` touches no source and is the pure function `Map`.
- **The same behaviour as methods.** `From`, `Force`, `Filter` and `Tail` advance the real `Source` object. Each is proved to end in the state the pure function predicts.
- **What a node yields.** `Elems(n, pos)` and `ThunkElems(t, pos)` give the sequence a node or thunk yields when its source is at `pos`. They are defined from the reference functions `MapSeq` and `FilterSeq` in `sequences.dfy`. The lemmas show that every node the code builds yields exactly what its abstraction says.
- **The iterator** (`lazy_list_iterator.dfy`). `LazyListIterator` is a class whose `head` and `tail` fields `Next` overwrites. Its ghost `Remaining()` is the sequence that the remaining `next()` calls return. `Drain` models a `for ... of` loop. `RunPipeline` models the driver: `from`, then `map`, then iteration.

The code does not memoize the tail: `tail` calls `this._tail?.()` on every read. A compute-once tail cell would behave differently, and this model follows the code. Two lemmas and a method show the consequences:
- two reads of one node's tail pull two successive source elements (`TailTwice`, `FromTailTwice`);
- a second traversal of a list built by `from` finds the source exhausted and yields only the list's first element (`Retraverse`).

## Model

| member | source | states |
|---|---|---|
| Sources.Source.Pull | src/iterators.ts:65 | one `next()` on the generator: the element at the current position with the position advanced by one, or `Done` with the position unchanged once the source is exhausted |
| LazyLists.From | src/iterators.ts:63-73 | on an exhausted source, a node with no head and no thunk and no pull; otherwise a node whose head is the pulled element and whose thunk calls `from` on the same source, with the source advanced by exactly one; the node yields the source's remaining elements in order |
| LazyLists.ForceAt | src/iterators.ts:63-106 | invoking any thunk the code creates either produces a node with a head, pulled from the source, and the same thunk again, or produces the empty node after pulling the source to its end; the position only moves forward |
| LazyLists.FilterAt | src/iterators.ts:89-106 | a `filter` result's head, if present, satisfies the predicate; a node without a thunk is filtered without touching the source, and the result has no thunk; for a node with a thunk, a result with a head keeps a `filter` thunk over that same thunk, and an empty result of a node with a head means the source was pulled to its end |
| LazyLists.Empty | src/iterators.ts:71 | `new LazyList()` (also at lines 77 and 91) yields nothing from any source position |
| LazyLists.Map | src/iterators.ts:75-87 | `map` pulls nothing: an absent head gives the empty node; a present head is mapped at once; the result has a thunk exactly when the node has both a head and a thunk, and that thunk pulls from the same source |
| LazyLists.TailAt | src/iterators.ts:55-57 | the `tail` getter: a tail exists exactly when the node has a thunk; without one the source stays put; with one, the tail read either has a head and the node's own thunk again, having pulled from the source, or is empty with the source pulled to its end |
| LazyLists.Force | src/iterators.ts:68-103 | invoking a thunk on the real source leaves the node and position `ForceAt` predicts, and the source stays valid |
| LazyLists.Filter | src/iterators.ts:89-106 | `filter` on the real source leaves the node and position `FilterAt` predicts; a present head satisfies the predicate; only the node's own source is touched |
| LazyLists.Tail | src/iterators.ts:55-57 | every read of `tail` invokes the thunk with the source where it is now (no cache), or gives no tail when there is no thunk |
| LazyLists.MapElems | src/iterators.ts:75-87 | a mapped node yields the function applied to each element, in order; an absent head gives the empty node; a head without a thunk gives a single-element node without a thunk |
| LazyLists.ForceElems | src/iterators.ts:63-106 | the node a thunk builds yields exactly what the thunk stands for: the remaining source for `from`, its mapped elements for `map`, its accepted elements for `filter` |
| LazyLists.FilterElems | src/iterators.ts:89-106 | a filtered node yields exactly the elements of the original that satisfy the predicate, in their original relative order |
| LazyLists.FilterScan | src/iterators.ts:99-104 | over a node built by `from`, an accepted head is kept without pulling; otherwise one `filter` call pulls up to and including the next accepted element and no further, or to the end of the source when none is accepted, and every element it pulled past was rejected |
| LazyLists.StepElems | src/iterators.ts:55-57 | reading the tail of a node with a head yields the rest of what the node yields |
| LazyLists.TailTwice | src/iterators.ts:55-57 | a second read of a node's tail gives what reading the first result's tail would, skipping the element the first read produced |
| LazyLists.FromTailTwice | src/iterators.ts:68 | on a node built by `from`, two reads of `tail` pull two successive source elements |
| LazyLists.FromNodeElems | src/iterators.ts:68 | what a node built by `from` yields is its head followed by what is left in the source; once the source is exhausted, only its head |
| LazyListIterators.LazyListIterator.constructor | src/iterators.ts:24-27 | takes the list's head and reads its tail once; the values still to come are exactly what the list yields |
| LazyListIterators.LazyListIterator.Next | src/iterators.ts:29-39 | with no head, returns `done` and changes nothing, so every later call is `done` as well; otherwise returns the head, moves to the old tail's head, and reads the old tail's tail once; the values still to come lose exactly the returned one |
| LazyListIterators.Drain | src/iterators.ts:116-118 | a `for ... of` loop collects exactly the values still to come, in order, and leaves the iterator done |
| LazyListIterators.ToSeq | src/iterators.ts:59-61 | iterating a list to completion yields exactly what the list yields; for a list with a head and a thunk, its source ends fully consumed |
| LazyListIterators.RunPipeline | src/iterators.ts:112-118 | `from(src).map(f)` iterated to completion yields `f` applied to each remaining source element, in order |
| LazyListIterators.Retraverse | src/iterators.ts:55-57 | two traversals of one list built by `from`: the first yields the source's remaining elements, the second only the list's first element, because the tail is not cached |
| Sequences.MapSeq | src/iterators.ts:75-87 | the reference for `map`: same length, with each element the function of the element at the same index |
| Sequences.FilterSeq | src/iterators.ts:89-106 | the reference for `filter`: no longer than the input, and every element satisfies the predicate |
| Sequences.FilterSeqCount | src/iterators.ts:89-106 | filtering keeps each accepted value as many times as it occurs and drops each rejected value entirely |
| Sequences.FilterSeqSubsequence | src/iterators.ts:89-106 | filtering never reorders: the result is a subsequence of the input |

## Left out

- `nodeIterator` (src/iterators.ts:3-10) is a DOM tree walk over a foreign `Node` type, and the `DOMParser` document (src/iterators.ts:12-17) is parsing. Both are sample input. The driver's source is modelled as a `Source` over an arbitrary finite sequence.
- The `console.log` calls in `nodeIterator`, `map`, `filter` and the driver loop are output only, and are not modelled.
- Infinite sources are not modelled: `data` is finite so that every function terminates. On an infinite source whose every element is rejected, `filter` would not return.
- `LazyLists.Map`: the mapping function has type `T -> T`. A datatype cannot hold a thunk whose intermediate element type is hidden, so `map` to a different element type (the driver's `node => node.nodeName`) is not modelled.
- The code's `new LazyList(head, tail)` accepts any closure. Only the three closure kinds the code itself creates (in `from`, `map` and `filter`) are represented.
- An element equal to `undefined` ends a JavaScript list (src/iterators.ts:30, 76, 90). Heads are `Option`s instead, so every element is a value.
- The `Symbol.iterator` / `Iterable` plumbing is not modelled beyond `next()` and one `for ... of` consumer. The `value: undefined` that accompanies `done: true` is not modelled either.
- `from` on a re-iterable `Iterable` such as an array restarts iteration on every call. It is not modelled: the source is a single-pass iterator, as in the driver.
- Exceptions thrown by the mapping function, the predicate or the source are not modelled: Dafny functions are total.
- A memoizing, thread-safe tail cell and iterative re-implementations of `map`/`filter` do not exist in the code, so they are not modelled.
