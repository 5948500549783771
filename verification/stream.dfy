/** The `Stream` sealed class: `Empty`, or `Cons` of a head and a tail.
    In `Stream.kt` both fields are `Lazy` thunks; here they are their values,
    so a `Stream` is a finite stream and every operation is its value
    semantics. Infinite streams are observed through finite prefixes (see
    module StreamGenerators). `Elements` is the reference meaning of a
    stream: its elements in order. */
module Streams {
  import Results

  datatype Stream<+E> = Empty | Cons(head: E, tail: Stream<E>)

  /** The elements of a stream, in order. */
  function Elements<E>(s: Stream<E>): seq<E> {
    match s
    case Empty => []
    case Cons(h, t) => [h] + Elements(t)
  }

  function Min(a: int, b: int): int {
    if a < b then a else b
  }

  function Max(a: int, b: int): int {
    if a < b then b else a
  }

  /** `first()`: the head, or the empty result on `Empty`. */
  function First<E>(s: Stream<E>): (r: Results.Result<E>)
    ensures r.Success? <==> |Elements(s)| > 0
    ensures r.Success? ==> r.value == Elements(s)[0]
    ensures !r.Failure?
  {
    match s
    case Empty => Results.Empty
    case Cons(h, _) => Results.Success(h)
  }

  /** `rest()`: the tail, or the empty result on `Empty`. */
  function Rest<E>(s: Stream<E>): (r: Results.Result<Stream<E>>)
    ensures r.Success? <==> |Elements(s)| > 0
    ensures r.Success? ==> Elements(r.value) == Elements(s)[1..]
    ensures !r.Failure?
  {
    match s
    case Empty => Results.Empty
    case Cons(_, t) => Results.Success(t)
  }

  /** `isEmpty()`. */
  function IsEmpty<E>(s: Stream<E>): (r: bool)
    ensures r <==> Elements(s) == []
  {
    s.Empty?
  }

  /** `takeAtMost(n)`: the first `n` elements, or all of them if fewer. */
  function TakeAtMost<E>(s: Stream<E>, n: int): (r: Stream<E>)
    ensures Elements(r) == Elements(s)[..Min(Max(n, 0), |Elements(s)|)]
    ensures n <= 0 ==> r == Empty
  {
    match s
    case Empty => Empty
    case Cons(h, t) => if n > 0 then Cons(h, TakeAtMost(t, n - 1)) else Empty
  }

  /** `takeWhile(p)`: the longest prefix whose elements all satisfy `p`. */
  function TakeWhile<E>(s: Stream<E>, p: E -> bool): (r: Stream<E>)
    ensures Elements(r) <= Elements(s)
    ensures forall i :: 0 <= i < |Elements(r)| ==> p(Elements(r)[i])
    ensures |Elements(r)| < |Elements(s)| ==> !p(Elements(s)[|Elements(r)|])
  {
    match s
    case Empty => Empty
    case Cons(h, t) => if p(h) then Cons(h, TakeWhile(t, p)) else Empty
  }

  /** `foldRight(acc, f)`, the structural recursion the combinators below
      are built on. `Stream.kt` hands `f` the folded tail as an unforced
      thunk; here it is handed the tail's value. */
  function FoldRight<E, U>(s: Stream<E>, acc: U, f: (E, U) -> U): U {
    match s
    case Empty => acc
    case Cons(h, t) => f(h, FoldRight(t, acc, f))
  }

  /** `takeWhileViaFoldRight(p)` with the fold step the name promises: an
      element failing `p` ends the result. */
  function TakeWhileViaFoldRight<E>(s: Stream<E>, p: E -> bool): Stream<E> {
    FoldRight(s, Empty, (item: E, rest: Stream<E>) => if p(item) then Cons(item, rest) else Empty)
  }

  /** `takeWhileViaFoldRight(p)` as `Stream.kt` writes it: an element failing
      `p` is skipped and the fold carries on with the rest. */
  function TakeWhileViaFoldRightAsWritten<E>(s: Stream<E>, p: E -> bool): Stream<E> {
    FoldRight(s, Empty, (item: E, rest: Stream<E>) => if p(item) then Cons(item, rest) else rest)
  }

  /** `firstSafe()`: the head through `foldRight`, never using the fold of
      the tail. */
  function FirstSafe<E>(s: Stream<E>): Results.Result<E> {
    FoldRight(s, Results.Empty, (t: E, _: Results.Result<E>) => Results.Success(t))
  }

  /** `map(f)`. */
  function Map<E, U>(s: Stream<E>, f: E -> U): Stream<U> {
    FoldRight(s, Empty, (e: E, acc: Stream<U>) => Cons(f(e), acc))
  }

  /** `append(stream2)`. */
  function Append<E>(s: Stream<E>, stream2: Stream<E>): Stream<E> {
    FoldRight(s, stream2, (e: E, acc: Stream<E>) => Cons(e, acc))
  }

  /** `flatMap(f)`. */
  function FlatMap<E, U>(s: Stream<E>, f: E -> Stream<U>): Stream<U> {
    FoldRight(s, Empty, (e: E, acc: Stream<U>) => Append(f(e), acc))
  }

  /** `dropAtMost(n)`: skips the first `n` elements, or all of them if
      fewer; the stream itself when `n <= 0`. */
  function DropAtMost<E>(s: Stream<E>, n: int): (r: Stream<E>)
    ensures Elements(r) == Elements(s)[Min(Max(n, 0), |Elements(s)|)..]
    ensures n <= 0 ==> r == s
  {
    if s.Cons? && n > 0 then DropAtMost(s.tail, n - 1) else s
  }

  /** `dropWhile(p)`: the suffix after the longest prefix satisfying `p`. */
  function DropWhile<E>(s: Stream<E>, p: E -> bool): (r: Stream<E>)
    ensures |Elements(r)| <= |Elements(s)|
    ensures Elements(r) == Elements(s)[|Elements(s)| - |Elements(r)|..]
    ensures forall i :: 0 <= i < |Elements(s)| - |Elements(r)| ==> p(Elements(s)[i])
    ensures r.Cons? ==> !p(r.head)
  {
    if s.Cons? && p(s.head) then DropWhile(s.tail, p) else s
  }

  /** `filter(p)`: drop the elements failing `p` up to the next one that
      passes, keep it, and filter the rest. */
  function Filter<E>(s: Stream<E>, p: E -> bool): Stream<E>
    decreases |Elements(s)|
  {
    var stream := DropWhile(s, (x: E) => !p(x));
    match stream
    case Empty => stream
    case Cons(h, t) => Cons(h, Filter(t, p))
  }

  /** `find(p)`: `filter(p).first()`. */
  function Find<E>(s: Stream<E>, p: E -> bool): Results.Result<E> {
    First(Filter(s, p))
  }

  /** `exists(p)`: whether some element satisfies `p`. */
  function Exists<E>(s: Stream<E>, p: E -> bool): (r: bool)
    ensures r <==> exists i :: 0 <= i < |Elements(s)| && p(Elements(s)[i])
  {
    match s
    case Empty => false
    case Cons(h, t) =>
      assert Elements(s)[0] == h;
      assert forall i :: 0 <= i < |Elements(t)| ==> Elements(t)[i] == Elements(s)[i + 1];
      if p(h) then true else Exists(t, p)
  }

  /** `List.reverse`. */
  function Reverse<E>(xs: seq<E>): (r: seq<E>)
    ensures |r| == |xs|
    ensures forall i :: 0 <= i < |xs| ==> r[i] == xs[|xs| - 1 - i]
  {
    if |xs| == 0 then [] else Reverse(xs[1..]) + [xs[0]]
  }

  /** The inner tail-recursive `toList(stream, list)`: prepends each element
      to the accumulator, so it builds the elements in reverse. */
  function ToListAcc<E>(s: Stream<E>, list: seq<E>): seq<E> {
    match s
    case Empty => list
    case Cons(h, t) => ToListAcc(t, [h] + list)
  }

  /** `toList()`. */
  function ToList<E>(s: Stream<E>): seq<E> {
    Reverse(ToListAcc(s, []))
  }
}
