/** The stream generators: `unfold`, `from`, `fib`, `iterate`, `repeat` and
    `fill`. Most of them build infinite streams, so each is modelled through
    its prefix observer: `Gen(..., depth)` is the finite stream
    `gen(...).takeAtMost(depth)`. The coherence lemmas (`UnfoldPrefixCoherent`
    and the length and element lemmas) show that these prefixes agree with
    one another, so together they determine one possibly infinite stream. */
module StreamGenerators {
  import Results
  import Int32
  import opened Thunk
  import opened Streams
  import opened StreamLaws

  /** `unfold(start, f)`, observed to `depth` elements: each successful step
      yields an element and the next state; the stream ends at the first
      state whose step is not a success (`map { .. }.getOrElse(Empty)`). */
  function Unfold<E, S>(start: S, f: S -> Results.Result<(E, S)>, depth: nat): (r: Stream<E>)
    ensures |Elements(r)| <= depth
  {
    if depth == 0 then Empty
    else
      match f(start)
      case Success((e, next)) => Cons(e, Unfold(next, f, depth - 1))
      case _ => Empty
  }

  /** Reference: the state `unfold` reaches after `i` successful steps, or
      the empty result when a step before that is not a success. */
  function StateAfter<E, S>(start: S, f: S -> Results.Result<(E, S)>, i: nat): Results.Result<S> {
    if i == 0 then Results.Success(start)
    else
      match f(start)
      case Success((_, next)) => StateAfter(next, f, i - 1)
      case _ => Results.Empty
  }

  /** Element `i` of `unfold` is what the step yields at the `i`-th state, and
      a stream shorter than its observation depth ended at a state whose
      step is not a success. */
  lemma {:induction false} UnfoldFollowsStates<E, S>(start: S, f: S -> Results.Result<(E, S)>, depth: nat)
    ensures var xs := Elements(Unfold(start, f, depth));
      forall i :: 0 <= i < |xs| ==>
        var st := StateAfter(start, f, i);
        st.Success? && f(st.value).Success? && f(st.value).value.0 == xs[i]
    ensures var xs := Elements(Unfold(start, f, depth));
      |xs| < depth ==>
        var st := StateAfter(start, f, |xs|);
        st.Success? && !f(st.value).Success?
  {
    if depth > 0 {
      match f(start)
      case Success((e, next)) =>
        UnfoldFollowsStates(next, f, depth - 1);
        var xs := Elements(Unfold(start, f, depth));
        assert xs == [e] + Elements(Unfold(next, f, depth - 1));
        assert forall i :: 1 <= i <= |xs| ==> StateAfter(start, f, i) == StateAfter(next, f, i - 1);
      case _ =>
    }
  }

  /** Observing `k` elements of a deeper observation is the observation at
      depth `k`. */
  lemma {:induction false} UnfoldPrefixCoherent<E, S>(start: S, f: S -> Results.Result<(E, S)>, k: nat, m: nat)
    requires k <= m
    ensures TakeAtMost(Unfold(start, f, m), k) == Unfold(start, f, k)
  {
    if k > 0 {
      match f(start)
      case Success((e, next)) => UnfoldPrefixCoherent(next, f, k - 1, m - 1);
      case _ =>
    }
  }

  /** Only a step's successes matter: two generators that succeed on the
      same states with the same pairs unfold to the same stream, however
      they tell an empty result from a failure. */
  lemma {:induction false} UnfoldEndsAlikeOnEmptyAndFailure<E, S>(start: S, f: S -> Results.Result<(E, S)>, g: S -> Results.Result<(E, S)>, depth: nat)
    requires forall s :: f(s).Success? <==> g(s).Success?
    requires forall s :: f(s).Success? ==> f(s).value == g(s).value
    ensures Unfold(start, f, depth) == Unfold(start, g, depth)
  {
    if depth > 0 && f(start).Success? {
      UnfoldEndsAlikeOnEmptyAndFailure(f(start).value.1, f, g, depth - 1);
    }
  }

  /** The step of `from`: emit the state, continue from its `Int` successor. */
  function FromStep(x: int): Results.Result<(int, int)> {
    Results.Success((x, Int32.Wrap(x + 1)))
  }

  /** `from(i)`, observed to `depth` elements. */
  function From(i: int, depth: nat): Stream<int> {
    Unfold(i, FromStep, depth)
  }

  /** Element `k` of `from(i)` is `i + k` in `Int` arithmetic, and the stream
      never ends. */
  lemma {:induction false} FromElements(i: int, depth: nat)
    requires Int32.InRange(i)
    decreases depth
    ensures |Elements(From(i, depth))| == depth
    ensures forall k :: 0 <= k < depth ==> Elements(From(i, depth))[k] == Int32.Wrap(i + k)
  {
    if depth > 0 {
      var next := Int32.Wrap(i + 1);
      FromElements(next, depth - 1);
      var xs := Elements(From(i, depth));
      assert xs == [i] + Elements(From(next, depth - 1));
      forall k | 1 <= k < depth
        ensures xs[k] == Int32.Wrap(i + k)
      {
        Int32.WrapAbsorb(i + 1, k - 1);
      }
    }
  }

  lemma FromElementsInRange(i: int, j: nat, depth: nat)
    requires Int32.InRange(i) && Int32.InRange(i + j) && j < depth
    ensures |Elements(From(i, depth))| == depth
    ensures forall k :: 0 <= k <= j ==> Elements(From(i, depth))[k] == i + k
  {
    FromElements(i, depth);
    forall k | 0 <= k <= j
      ensures Elements(From(i, depth))[k] == i + k
    {
      assert Int32.InRange(i + k);
    }
  }

  /** Finding `i + j` in `from(i)` yields it, as long as no `Int` overflow
      happens on the way. */
  lemma FindInFrom(i: int, j: nat, depth: nat)
    requires Int32.InRange(i) && Int32.InRange(i + j) && j < depth
    ensures Find(From(i, depth), x => x == i + j) == Results.Success(i + j)
  {
    FromElementsInRange(i, j, depth);
    var xs := Elements(From(i, depth));
    var p := (x: int) => x == i + j;
    assert forall k :: 0 <= k < j ==> !p(xs[k]);
    FindFirstMatch(From(i, depth), p, j);
  }

  /** Reference: the Fibonacci numbers starting 1, 1. */
  function Fibonacci(n: nat): nat {
    if n < 2 then 1 else Fibonacci(n - 2) + Fibonacci(n - 1)
  }

  /** The step of `fib`: from state `(x, y)` emit `x`, continue from
      `(y, x + y)` in `Int` arithmetic. */
  function FibStep(state: (int, int)): Results.Result<(int, (int, int))> {
    Results.Success((state.0, (state.1, Int32.Wrap(state.0 + state.1))))
  }

  /** `fib()`, observed to `depth` elements. */
  function Fib(depth: nat): Stream<int> {
    Unfold((1, 1), FibStep, depth)
  }

  lemma FibStepWrapped(j: nat)
    ensures FibStep((Int32.Wrap(Fibonacci(j)), Int32.Wrap(Fibonacci(j + 1))))
      == Results.Success((Int32.Wrap(Fibonacci(j)), (Int32.Wrap(Fibonacci(j + 1)), Int32.Wrap(Fibonacci(j + 2)))))
  {
    Int32.WrapAdd(Fibonacci(j), Fibonacci(j + 1));
  }

  lemma {:induction false} FibFrom(j: nat, depth: nat)
    ensures var xs := Elements(Unfold((Int32.Wrap(Fibonacci(j)), Int32.Wrap(Fibonacci(j + 1))), FibStep, depth));
      |xs| == depth && forall k :: 0 <= k < depth ==> xs[k] == Int32.Wrap(Fibonacci(j + k))
    decreases depth
  {
    if depth > 0 {
      var a, b, c := Int32.Wrap(Fibonacci(j)), Int32.Wrap(Fibonacci(j + 1)), Int32.Wrap(Fibonacci(j + 2));
      FibStepWrapped(j);
      FibFrom(j + 1, depth - 1);
      var rest := Elements(Unfold((b, c), FibStep, depth - 1));
      assert Elements(Unfold((a, b), FibStep, depth)) == [a] + rest;
    }
  }

  /** Element `k` of `fib()` is the `k`-th Fibonacci number in `Int`
      arithmetic, and the stream never ends. */
  lemma FibElements(depth: nat)
    ensures |Elements(Fib(depth))| == depth
    ensures forall k :: 0 <= k < depth ==> Elements(Fib(depth))[k] == Int32.Wrap(Fibonacci(k))
  {
    FibFrom(0, depth);
  }

  /** `fib()` begins 1, 1, 2, 3, 5, 8, 13. */
  lemma FibBegins()
    ensures Elements(Fib(7)) == [1, 1, 2, 3, 5, 8, 13]
  {
    FibElements(7);
    assert Fibonacci(2) == 2 && Fibonacci(3) == 3 && Fibonacci(4) == 5;
    assert Fibonacci(5) == 8 && Fibonacci(6) == 13;
  }

  /** `iterate(seed, f)`, observed to `depth` elements. */
  function Iterate<E>(seed: E, f: E -> E, depth: nat): (r: Stream<E>)
    ensures |Elements(r)| == depth
  {
    if depth == 0 then Empty else Cons(seed, Iterate(f(seed), f, depth - 1))
  }

  /** The overload `iterate(seed: Lazy<E>, f)`: the stream of the seed's
      value. */
  function IterateLazy<E>(seed: Lazy<E>, f: E -> E, depth: nat): (r: Stream<E>)
    ensures r == Iterate(Value(seed), f, depth)
  {
    if depth == 0 then Empty else Cons(Value(seed), Iterate(f(Value(seed)), f, depth - 1))
  }

  /** Reference: `f` applied `n` times. */
  function Power<E>(f: E -> E, n: nat, x: E): E {
    if n == 0 then x else f(Power(f, n - 1, x))
  }

  lemma {:induction false} PowerShift<E>(f: E -> E, n: nat, x: E)
    ensures Power(f, n, f(x)) == Power(f, n + 1, x)
  {
    if n > 0 {
      PowerShift(f, n - 1, x);
    }
  }

  /** Element `i` of `iterate(seed, f)` is `f` applied `i` times to `seed`. */
  lemma {:induction false} IterateElements<E>(seed: E, f: E -> E, depth: nat)
    ensures forall i :: 0 <= i < depth ==> Elements(Iterate(seed, f, depth))[i] == Power(f, i, seed)
  {
    if depth > 0 {
      IterateElements(f(seed), f, depth - 1);
      var xs := Elements(Iterate(seed, f, depth));
      assert xs == [seed] + Elements(Iterate(f(seed), f, depth - 1));
      forall i | 1 <= i < depth
        ensures xs[i] == Power(f, i, seed)
      {
        PowerShift(f, i - 1, seed);
      }
    }
  }

  /** Counting up from 0 in `Int` arithmetic reaches `n` after `n` steps
      while `n` fits an `Int`. */
  lemma {:induction false} PowerOfSuccessor(n: nat)
    requires n <= Int32.MAX
    ensures Power(y => Int32.Wrap(y + 1), n, 0) == n
  {
    if n > 0 {
      PowerOfSuccessor(n - 1);
      assert Int32.InRange(n);
    }
  }

  /** Finding `j` in `iterate(0) { it + 1 }` yields `j` for every `j` an
      `Int` can hold: the search stops at the match, so any observation
      depth past `j` gives the same answer. */
  lemma FindInCounting(j: nat, depth: nat)
    requires j <= Int32.MAX && j < depth
    ensures Find(Iterate(0, y => Int32.Wrap(y + 1), depth), x => x == j) == Results.Success(j)
  {
    var succ := y => Int32.Wrap(y + 1);
    IterateElements(0, succ, depth);
    var xs := Elements(Iterate(0, succ, depth));
    forall i | 0 <= i <= j
      ensures xs[i] == i
    {
      PowerOfSuccessor(i);
    }
    FindFirstMatch(Iterate(0, succ, depth), x => x == j, j);
  }

  /** `repeat(f)`, observed to `depth` elements: every element is `f()`,
      with `f` taken to be pure. */
  function Repeat<T>(f: () -> T, depth: nat): (r: Stream<T>)
    ensures |Elements(r)| == depth
    ensures forall i :: 0 <= i < depth ==> Elements(r)[i] == f()
  {
    if depth == 0 then Empty else Cons(f(), Repeat(f, depth - 1))
  }

  /** The inner tail-recursive `fill(acc, n, elem)`: puts `n` copies of
      `elem` in front of `acc`. */
  function FillLoop<E>(acc: Stream<E>, n: int, elem: E): (r: Stream<E>)
    ensures |Elements(r)| == Max(n, 0) + |Elements(acc)|
    ensures forall i :: 0 <= i < Max(n, 0) ==> Elements(r)[i] == elem
    ensures Elements(r)[Max(n, 0)..] == Elements(acc)
    decreases n
  {
    if n <= 0 then acc else FillLoop(Cons(elem, acc), n - 1, elem)
  }

  /** `fill(n, element)`: `n` positions (none when `n <= 0`), all sharing
      the one thunk, so all holding its value. */
  function Fill<E>(n: int, element: Lazy<E>): (r: Stream<E>)
    ensures |Elements(r)| == Max(n, 0)
    ensures forall i :: 0 <= i < Max(n, 0) ==> Elements(r)[i] == Value(element)
  {
    FillLoop(Empty, n, Value(element))
  }
}
