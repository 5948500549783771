/** What the stream operations mean, stated against the stream's elements
    and against the usual list functions, and the laws that relate the
    operations to one another. */
module StreamLaws {
  import Results
  import opened Streams

  /** Reference: the list filter. */
  function SeqFilter<E>(xs: seq<E>, p: E -> bool): seq<E> {
    if |xs| == 0 then []
    else (if p(xs[0]) then [xs[0]] else []) + SeqFilter(xs[1..], p)
  }

  /** Reference: the in-order concatenation of every element's sub-stream. */
  function SeqFlatMap<E, U>(xs: seq<E>, f: E -> Stream<U>): seq<U> {
    if |xs| == 0 then [] else Elements(f(xs[0])) + SeqFlatMap(xs[1..], f)
  }

  lemma {:induction false} SeqFilterSkip<E>(xs: seq<E>, k: nat, p: E -> bool)
    requires k <= |xs|
    requires forall i :: 0 <= i < k ==> !p(xs[i])
    ensures SeqFilter(xs, p) == SeqFilter(xs[k..], p)
  {
    if k > 0 {
      assert xs[1..][k - 1..] == xs[k..];
      SeqFilterSkip(xs[1..], k - 1, p);
    }
  }

  /** `toList`'s accumulator holds the elements seen so far, reversed. */
  lemma {:induction false} ToListAccReverses<E>(s: Stream<E>, list: seq<E>)
    ensures ToListAcc(s, list) == Reverse(Elements(s)) + list
  {
    match s
    case Empty =>
    case Cons(h, t) =>
      ToListAccReverses(t, [h] + list);
      assert Elements(s)[1..] == Elements(t);
      assert Reverse(Elements(s)) == Reverse(Elements(t)) + [h];
  }

  /** `toList()` returns the elements in stream order; on `Empty` it is the
      empty list. */
  lemma ToListInOrder<E>(s: Stream<E>)
    ensures ToList(s) == Elements(s)
    ensures s == Empty ==> ToList(s) == []
  {
    ToListAccReverses(s, []);
    assert Reverse(Elements(s)) + [] == Reverse(Elements(s));
    assert Reverse(Reverse(Elements(s))) == Elements(s);
  }

  /** The fold with the step `takeWhileViaFoldRight` was meant to have is
      `takeWhile`. */
  lemma {:induction false} TakeWhileViaFoldRightIsTakeWhile<E>(s: Stream<E>, p: E -> bool)
    ensures TakeWhileViaFoldRight(s, p) == TakeWhile(s, p)
  {
    match s
    case Empty =>
    case Cons(h, t) => TakeWhileViaFoldRightIsTakeWhile(t, p);
  }

  /** As written, `takeWhileViaFoldRight` keeps every element satisfying
      `p`: it is `filter`, not `takeWhile`. */
  lemma {:induction false} TakeWhileViaFoldRightAsWrittenIsFilter<E>(s: Stream<E>, p: E -> bool)
    ensures Elements(TakeWhileViaFoldRightAsWritten(s, p)) == SeqFilter(Elements(s), p)
  {
    match s
    case Empty =>
    case Cons(h, t) =>
      TakeWhileViaFoldRightAsWrittenIsFilter(t, p);
      assert Elements(s)[1..] == Elements(t);
  }

  /** On the stream 1, 5, 2 with `p(x) = x < 3` the Kotlin
      `takeWhileViaFoldRight` yields 1, 2 where `takeWhile` yields 1. */
  lemma TakeWhileViaFoldRightAsWrittenDiffers()
    ensures Elements(TakeWhileViaFoldRightAsWritten(Cons(1, Cons(5, Cons(2, Empty))), (x: int) => x < 3)) == [1, 2]
    ensures Elements(TakeWhile(Cons(1, Cons(5, Cons(2, Empty))), (x: int) => x < 3)) == [1]
  {
  }

  /** `firstSafe()` agrees with `first()`. */
  lemma FirstSafeIsFirst<E>(s: Stream<E>)
    ensures FirstSafe(s) == First(s)
  {
  }

  /** `map(f)` keeps the length and maps element `i` to `f` of it. */
  lemma {:induction false} MapElements<E, U>(s: Stream<E>, f: E -> U)
    ensures |Elements(Map(s, f))| == |Elements(s)|
    ensures forall i :: 0 <= i < |Elements(s)| ==> Elements(Map(s, f))[i] == f(Elements(s)[i])
  {
    match s
    case Empty =>
    case Cons(h, t) =>
      MapElements(t, f);
      assert Elements(Map(s, f)) == [f(h)] + Elements(Map(t, f));
  }

  /** Mapping twice is mapping by the composition. */
  lemma {:induction false} MapFusion<E, U, V>(s: Stream<E>, f: E -> U, g: U -> V)
    ensures Map(Map(s, f), g) == Map(s, x => g(f(x)))
  {
    match s
    case Empty =>
    case Cons(h, t) => MapFusion(t, f, g);
  }

  /** `append` concatenates the elements. */
  lemma {:induction false} AppendElements<E>(s: Stream<E>, t: Stream<E>)
    ensures Elements(Append(s, t)) == Elements(s) + Elements(t)
  {
    match s
    case Empty =>
    case Cons(h, rest) =>
      AppendElements(rest, t);
      assert Elements(Append(s, t)) == [h] + Elements(Append(rest, t));
  }

  /** Folding an appended stream folds the first part onto the fold of the
      second. */
  lemma {:induction false} FoldRightOverAppend<E, U>(s: Stream<E>, t: Stream<E>, acc: U, f: (E, U) -> U)
    ensures FoldRight(Append(s, t), acc, f) == FoldRight(s, FoldRight(t, acc, f), f)
  {
    match s
    case Empty =>
    case Cons(h, rest) => FoldRightOverAppend(rest, t, acc, f);
  }

  /** `flatMap(f)` is the in-order concatenation of `f` of each element. */
  lemma {:induction false} FlatMapElements<E, U>(s: Stream<E>, f: E -> Stream<U>)
    ensures Elements(FlatMap(s, f)) == SeqFlatMap(Elements(s), f)
  {
    match s
    case Empty =>
    case Cons(h, t) =>
      FlatMapElements(t, f);
      AppendElements(f(h), FlatMap(t, f));
      assert Elements(s)[1..] == Elements(t);
  }

  /** `filter(p)` is the list filter of the elements. */
  lemma {:induction false} FilterElements<E>(s: Stream<E>, p: E -> bool)
    ensures Elements(Filter(s, p)) == SeqFilter(Elements(s), p)
    decreases |Elements(s)|
  {
    var notP := (x: E) => !p(x);
    var d := DropWhile(s, notP);
    var k := |Elements(s)| - |Elements(d)|;
    SeqFilterSkip(Elements(s), k, p);
    match d
    case Empty =>
    case Cons(h, t) =>
      FilterElements(t, p);
      assert Elements(d)[1..] == Elements(t);
  }

  /** `find(p)` yields the first element satisfying `p`. */
  lemma FindFirstMatch<E>(s: Stream<E>, p: E -> bool, i: nat)
    requires i < |Elements(s)| && p(Elements(s)[i])
    requires forall j :: 0 <= j < i ==> !p(Elements(s)[j])
    ensures Find(s, p) == Results.Success(Elements(s)[i])
  {
    FilterElements(s, p);
    SeqFilterSkip(Elements(s), i, p);
    var xs := Elements(s)[i..];
    assert xs[0] == Elements(s)[i];
  }

  /** `find(p)` is empty exactly when no element satisfies `p`, and it
      never fails. */
  lemma FindEmptyIffNoneExists<E>(s: Stream<E>, p: E -> bool)
    ensures Find(s, p) == Results.Empty <==> !Exists(s, p)
    ensures !Find(s, p).Failure?
  {
  }

  /** Observing a prefix commutes with `map`. */
  lemma {:induction false} TakeAtMostOfMap<E, U>(s: Stream<E>, f: E -> U, n: int)
    ensures TakeAtMost(Map(s, f), n) == Map(TakeAtMost(s, n), f)
  {
    match s
    case Empty =>
    case Cons(h, t) => if n > 0 { TakeAtMostOfMap(t, f, n - 1); }
  }

  /** `find` skips a head that fails `p`. */
  lemma FindSkipsFailingHead<E>(h: E, t: Stream<E>, p: E -> bool)
    requires !p(h)
    ensures Find(Cons(h, t), p) == Find(t, p)
  {
  }

  /** A match found in a prefix is what `find` yields on the whole stream:
      `find` never looks past its first match. */
  lemma {:induction false} FindOnPrefix<E>(s: Stream<E>, p: E -> bool, n: int)
    requires Exists(TakeAtMost(s, n), p)
    ensures Find(s, p) == Find(TakeAtMost(s, n), p)
  {
    match s
    case Cons(h, t) =>
      if !p(h) {
        FindOnPrefix(t, p, n - 1);
        FindSkipsFailingHead(h, t, p);
        FindSkipsFailingHead(h, TakeAtMost(t, n - 1), p);
      }
  }
}
