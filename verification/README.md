# Lazy streams, memoized thunks and a scripted reader, in Dafny

This project models the functional core of a small Kotlin exercise
repository:

- the persistent lazy `Stream` (`src/stream/Stream.kt`): an `Empty`
  stream or a `Cons` of a head and a tail. It has structural operations
  (`takeAtMost`, `takeWhile`, `dropAtMost`, `dropWhile`, `toList`,
  `exists`), combinators built on `foldRight` (`map`, `append`, `flatMap`,
  `takeWhileViaFoldRight`, `firstSafe`), `filter` and `find`, and the
  generators `unfold`, `iterate`, `from`, `fill`, `repeat` and `fib`;
- the memoizing thunk `Lazy` (`src/stream/Lazy.kt`): `invoke`, `map`,
  `flatMap`, the three `forEach` overloads, `lift` and `sequence`;
- the `ScriptReader` (`src/ScriptReader.kt`): an input that reads strings
  and integers from a fixed list of commands.

Modules, one per component:

- `Results` (`results.dfy`) stands in for the imported `result.Result`:
  `Success(value) | Empty | Failure(message)`. The imported `list.List` is
  Dafny's `seq`.
- `Int32` (`int32.dfy`) is Kotlin's `Int`. `Wrap` models the 32-bit
  wrap-around of `+`, which `from` and `fib` rely on.
- `Thunk` (`thunk.dfy`) models `Lazy<A>` as a two-state machine,
  `Unevaluated(compute)` or `Evaluated(memo)`. `Value` is what every force
  yields. `Invoke` returns that value, the state afterwards, and whether the
  computation ran.
- `Streams` (`stream.dfy`) holds the stream datatype and its operations.
  `Elements` is the reference meaning of a stream: its elements in order.
- `StreamLaws` (`stream_laws.dfy`) relates each operation to `Elements`
  and to list reference functions (`SeqFilter`, `SeqFlatMap`). It also
  holds the laws between operations and the prefix lemmas for infinite
  streams.
- `StreamGenerators` (`stream_generators.dfy`) holds the generators.
  Infinite streams are observed through their finite prefixes: each
  generator takes an observation depth, and `Gen(..., depth)` is the finite
  stream `gen(...).takeAtMost(depth)`. `UnfoldPrefixCoherent` shows these prefixes
  agree with one another. `FindOnPrefix` and `TakeAtMostOfMap` show that
  `find` and `map` on the whole stream are determined by a prefix.
- `Scripts` (`script_reader.dfy`) holds the reader, `Integer.parseInt` as
  `ParseInt`, and the link between `unfold` and the reader.

Points where the model follows the code rather than a simpler reading of
the operations:

- The generator that `unfold` consumes returns a three-way `Result`
  (success, empty, failure), not an optional pair. `unfold` ends the stream
  on both empty and failure (`UnfoldEndsAlikeOnEmptyAndFailure`), so an
  error and the end of the input look the same in the stream.
- The stream code has no `fromList`, so none is modelled.
- `takeWhileViaFoldRight` does not compute `takeWhile` (see Findings).

## Model

| member | source | states |
|---|---|---|
| Streams.First | src/stream/Stream.kt:76-94 | `first()` succeeds exactly on a non-empty stream, with its first element; it is never a failure |
| Streams.Rest | src/stream/Stream.kt:76-96 | `rest()` succeeds exactly on a non-empty stream, with the stream of all elements but the first |
| Streams.IsEmpty | src/stream/Stream.kt:81-98 | `isEmpty()` holds exactly when the stream has no elements |
| Streams.TakeAtMost | src/stream/Stream.kt:83-103 | the elements are the first `min(max(n,0), length)` elements in order; `n <= 0` gives `Empty` |
| Streams.TakeWhile | src/stream/Stream.kt:85-108 | the result is a prefix, all its elements satisfy `p`, and the element after it (if any) fails `p`: the longest such prefix |
| StreamLaws.TakeWhileViaFoldRightIsTakeWhile | src/stream/Stream.kt:31-39 | the fold with the evidently intended step (a failing element ends the result) equals `takeWhile` |
| StreamLaws.TakeWhileViaFoldRightAsWrittenIsFilter | src/stream/Stream.kt:31-39 | as written, `takeWhileViaFoldRight(p)` yields the list filter of the elements by `p` |
| StreamLaws.TakeWhileViaFoldRightAsWrittenDiffers | src/stream/Stream.kt:31-39 | on 1, 5, 2 with `p(x) = x < 3` the as-written fold yields 1, 2 while `takeWhile` yields 1 |
| StreamLaws.FirstSafeIsFirst | src/stream/Stream.kt:41-42 | `firstSafe()` equals `first()` on every stream |
| StreamLaws.MapElements | src/stream/Stream.kt:44-49 | `map(f)` keeps the length and element `i` becomes `f` of element `i` |
| StreamLaws.MapFusion | src/stream/Stream.kt:44-49 | `s.map(f).map(g)` equals `s.map { g(f(it)) }` |
| StreamLaws.TakeAtMostOfMap | src/stream/Stream.kt:44-49 | taking a prefix after `map` equals mapping the prefix, so `map` on an infinite stream is determined by its prefixes |
| StreamLaws.FilterElements | src/stream/Stream.kt:51-58 | `filter(p)` yields exactly the list filter of the elements by `p`, in order |
| StreamLaws.AppendElements | src/stream/Stream.kt:60-65 | the elements of `append(t)` are the receiver's elements followed by those of `t` |
| StreamLaws.FoldRightOverAppend | src/stream/Stream.kt:110-111 | folding `s.append(t)` folds `s` onto the fold of `t` |
| StreamLaws.FlatMapElements | src/stream/Stream.kt:67-72 | `flatMap(f)` yields the in-order concatenation of the elements of `f(e)` for each element `e` |
| StreamLaws.FindFirstMatch | src/stream/Stream.kt:74 | when element `i` is the first to satisfy `p`, `find(p)` succeeds with element `i` |
| StreamLaws.FindEmptyIffNoneExists | src/stream/Stream.kt:74 | `find(p)` is empty exactly when `exists(p)` is false, and never a failure |
| StreamLaws.FindOnPrefix | src/stream/Stream.kt:74 | if a prefix holds a match, `find` on the whole stream equals `find` on the prefix |
| Streams.DropAtMost | src/stream/Stream.kt:121-124 | the elements are all but the first `min(max(n,0), length)`; with `n <= 0` the stream itself |
| Streams.DropWhile | src/stream/Stream.kt:126-130 | the result is a suffix, every dropped element satisfies `p`, and the result is `Empty` or starts with an element failing `p` |
| StreamLaws.ToListAccReverses | src/stream/Stream.kt:133-137 | the inner accumulating `toList` puts the elements, reversed, in front of the accumulator |
| StreamLaws.ToListInOrder | src/stream/Stream.kt:132-140 | `toList()` returns the elements in stream order; on `Empty` it is the empty list |
| Streams.Exists | src/stream/Stream.kt:148-155 | `exists(p)` holds exactly when some element satisfies `p` |
| StreamGenerators.Unfold | src/stream/Stream.kt:157-160 | an observation to depth `d` has at most `d` elements |
| StreamGenerators.UnfoldFollowsStates | src/stream/Stream.kt:157-160 | element `i` is what the step yields at the state reached after `i` successful steps; a stream shorter than its depth ended at a state whose step is not a success |
| StreamGenerators.UnfoldPrefixCoherent | src/stream/Stream.kt:157-160 | the first `k` elements of a deeper observation are the observation at depth `k` |
| StreamGenerators.UnfoldEndsAlikeOnEmptyAndFailure | src/stream/Stream.kt:157-160 | two generators with the same successes unfold to the same stream: empty and failure both end it |
| StreamGenerators.FromElements | src/stream/Stream.kt:162 | `from(i)` never ends and element `k` is `i + k` in wrapping `Int` arithmetic |
| StreamGenerators.FindInFrom | src/stream/Stream.kt:162 | `from(i).find { it == i + j }` yields `i + j` when no overflow occurs on the way |
| StreamGenerators.Iterate | src/stream/Stream.kt:142-143 | `iterate(seed, f)` never ends: every observation to depth `d` has `d` elements |
| StreamGenerators.IterateElements | src/stream/Stream.kt:142-143 | element `i` of `iterate(seed, f)` is `f` applied `i` times to `seed` |
| StreamGenerators.IterateLazy | src/stream/Stream.kt:145-146 | the overload taking a thunk seed is `iterate` of the seed's value |
| StreamGenerators.FindInCounting | src/stream/Stream.kt:142-143 | `iterate(0) { it + 1 }.find { it == j }`, with `it + 1` in 32-bit `Int` arithmetic, yields `j` for every `j` up to `Int.MAX_VALUE` at every observation depth past `j` |
| StreamGenerators.FibElements | src/stream/Stream.kt:177-179 | `fib()` never ends and element `k` is the `k`-th Fibonacci number (1, 1, 2, ...) in wrapping `Int` arithmetic |
| StreamGenerators.FibBegins | src/stream/Stream.kt:177-179 | `fib()` begins 1, 1, 2, 3, 5, 8, 13 |
| StreamGenerators.Repeat | src/stream/Stream.kt:24-25 | `repeat(f)` never ends and, for a pure `f`, every element is `f()` |
| StreamGenerators.FillLoop | src/stream/Stream.kt:165-170 | the inner `fill` puts `max(n,0)` copies of the element in front of the accumulator |
| StreamGenerators.Fill | src/stream/Stream.kt:164-173 | `fill(n, e)` has `max(n,0)` elements, all equal to `e`'s value |
| Thunk.Invoke | src/stream/Lazy.kt:10-13 | forcing yields the thunk's value and leaves it evaluated with the same value; the computation runs exactly when the thunk was unevaluated |
| Thunk.InvokeIsMemoized | src/stream/Lazy.kt:10-13 | a second force yields the same value, runs nothing and leaves the state as it was |
| Thunk.InvokeRepeatedly | src/stream/Lazy.kt:10-13 | `n` forces in a row all yield the same value, and the computation runs once if `n >= 1` on an unevaluated thunk, otherwise never |
| Thunk.Map | src/stream/Lazy.kt:15 | `map(f)` does not force anything and forces to `f(v)`, `v` the receiver's value |
| Thunk.MapLaws | src/stream/Lazy.kt:15 | `map` preserves identity and composition |
| Thunk.FlatMap | src/stream/Lazy.kt:17 | `flatMap(f)` does not force anything and forces to the forced value of `f(v)` |
| Thunk.FlatMapLaws | src/stream/Lazy.kt:17 | `flatMap` satisfies the monad laws with an evaluated thunk as unit |
| Thunk.MapIgnoresMemo | src/stream/Lazy.kt:15-17 | `map` and `flatMap` give the same value whether or not the receiver was forced before |
| Thunk.ForEachValueIfTrue | src/stream/Lazy.kt:19-23 | runs `ifTrue(v)` when the condition holds and `ifFalse()` otherwise, forcing the receiver only in the first case |
| Thunk.ForEachValueIfFalse | src/stream/Lazy.kt:25-29 | runs `ifTrue()` when the condition holds and `ifFalse(v)` otherwise, forcing the receiver only in the second case |
| Thunk.ForEachValueEither | src/stream/Lazy.kt:31-33 | runs exactly one of `ifTrue(v)` and `ifFalse(v)` by the condition, always forcing the receiver |
| Thunk.Lift | src/stream/Lazy.kt:36-41 | `lift(f)(a)(b)` forces to `f(a())(b())` |
| Thunk.LiftIsFlatMapThenMap | src/stream/Lazy.kt:36-41 | `lift(f)(a)(b)` has the value of `a.flatMap { x -> b.map(f(x)) }` |
| Thunk.Values | src/stream/Lazy.kt:45-46 | `list.map { it() }` has the list's length and holds each thunk's value in order |
| Thunk.Sequence | src/stream/Lazy.kt:45-46 | `sequence(list)` is unforced and forces to a list of the same length holding each thunk's value in order |
| Thunk.SequenceOfConcat | src/stream/Lazy.kt:45-46 | `sequence` of a concatenation forces to the concatenation of the two forced lists |
| Scripts.ReadString | src/ScriptReader.kt:15-18 | succeeds exactly on a non-empty script, with the first command and a reader over the rest; otherwise fails with "Not enough entries in script" |
| Scripts.ReadStringsConsume | src/ScriptReader.kt:15-17 | `k` successive reads succeed exactly when there are `k` commands, return the first `k` in order, and leave a reader over exactly the others |
| Scripts.UnfoldReadString | src/ScriptReader.kt:15-17 | `unfold(reader) { it.readString() }` streams the script's commands in order and ends with the script |
| Scripts.ParseInt | src/ScriptReader.kt:33 | a successful parse yields a value that fits an `Int`; any other outcome is a failure carrying the `NumberFormatException` message for the input |
| Scripts.ParseIntAcceptsOnlyNumerals | src/ScriptReader.kt:33 | a parse succeeds only on an optional `-` or `+` followed by one or more decimal digits and nothing else |
| Scripts.ParseShow | src/ScriptReader.kt:33 | parsing the decimal rendering of any `Int` gives back that `Int` |
| Scripts.ReadInt | src/ScriptReader.kt:20-30 | fails on an empty script or an unparsable first command; a non-negative parse succeeds with a reader over the rest; a negative parse gives the empty result |
| Scripts.ReadIntOfShow | src/ScriptReader.kt:20-30 | a written-out non-negative `Int` is read back with the remaining commands; a negative one gives the empty result |
| Scripts.UnfoldReadInt | src/ScriptReader.kt:20-30 | `unfold(reader) { it.readInt() }` streams the parsed values of the leading commands that parse to non-negative `Int`s, and stops at the first command that does not |

## Findings

| source | as written | input that shows it | evidently intended | confidence | as-written member | corrected member |
|---|---|---|---|---|---|---|
| src/stream/Stream.kt:31-39 | when an element fails `p`, the fold step returns `lStream()`, the fold of the rest, so later elements that satisfy `p` are kept | the stream 1, 5, 2 with `p(x) = x < 3` yields 1, 2 | return `Empty` there, so the result is `takeWhile(p)`, here 1 | high (not executed) | StreamLaws.TakeWhileViaFoldRightAsWrittenDiffers | StreamLaws.TakeWhileViaFoldRightIsTakeWhile |

`Streams.TakeWhileViaFoldRightAsWritten` is the fold as written.
`StreamLaws.TakeWhileViaFoldRightAsWrittenIsFilter` proves it is a filter
in general. `Streams.TakeWhileViaFoldRight` is the corrected fold.

## Left out

- Laziness and evaluation order. Stream heads and tails are values, not
  thunks. How many tail thunks an operation forces, and whether the head is
  forced with the tail, are not modelled. Only the value of each operation
  is.
- Streams.FoldRight: the source passes the fold of the tail to `f` as an
  unforced `Lazy`; here `f` receives its value. Short-circuiting by ignoring
  the accumulator (as `firstSafe` does) gives the same value either way.
- Infinite streams are observed only through finite prefixes: each
  generator takes an observation depth. Operations that never finish on an
  infinite stream, such as `toList`, `filter` with no further match and
  `exists` with no match, are stated only for finite streams.
- StreamGenerators.Unfold: the function's own contract only bounds the
  length. What the elements are is stated by `UnfoldFollowsStates` and the
  other `Unfold` lemmas.
- Thunk: the model keeps each thunk's own state only. In the source, forcing
  a thunk made by `map` or `flatMap` also fills the receiver's cache.
  Forcing `lift(f)(a)(b)` (`src/stream/Lazy.kt:36-41`) fills the caches of
  `a` and `b`, and forcing `sequence(list)` (`src/stream/Lazy.kt:45-46`)
  fills the cache of every thunk in the list. Values cannot show this, and a
  pure model cannot track it.
- Thunk: a computation that throws, and thread safety of `by lazy`, are not
  modelled: the model's computations are total and single-threaded.
- StreamGenerators.Repeat: `f` is modelled as a pure function. `Stream.kt`
  wraps each position in its own thunk, so `f` is called anew for every
  element. An effectful `f`, such as a random source or a reader, would give
  its successive results, and that is not modelled.
- StreamGenerators.Fill: all positions share one thunk, so the element is
  computed at most once. In a value model every position just holds the
  value.
- `toResult` and `sequenceResult1/2/3` (`src/stream/Lazy.kt:48-77`):
  `toResult` depends on JVM exception catching. The others delegate to list
  and result functions that are not part of this model.
- `Stream()` and `Stream.cons` are the datatype constructors `Empty` and
  `Cons`. No separate member models them.
- A `null` head passed to `Result(...)` by `first()` is not modelled.
- `ScriptReader.close()` has no effect. The `vararg` constructor builds the
  same reader as the list constructor. Neither has anything to state.
- Scripts.ParseInt: `Integer.parseInt` also accepts non-ASCII Unicode
  decimal digits. The model accepts only `0`-`9`. A failed read carries the
  exception's message, not the exception.
- `src/Input.kt`, `src/ConsoleReader.kt`, `src/FileReader.kt`,
  `src/io/Console.kt`, `src/io/Input.kt`, `src/IO.kt` and `src/Main.kt` are
  console and file I/O and a demo. They are not part of this model.
