/** Kotlin's memoizing `Lazy<A>` as a two-state machine: a thunk starts out
    holding its computation and, once forced, holds the computed value and
    nothing else. Functions here are pure, so "the value" of a thunk is the
    same in both states; what the states add is how many times the
    underlying computation runs. */
module Thunk {

  datatype Lazy<A> = Unevaluated(compute: () -> A) | Evaluated(memo: A)

  /** The value every force of `l` yields. */
  function Value<A>(l: Lazy<A>): A {
    match l
    case Unevaluated(f) => f()
    case Evaluated(v) => v
  }

  /** What one call of `invoke()` observes: the value, the thunk's state
      afterwards, and whether the underlying computation ran. */
  datatype Forced<A> = Forced(value: A, next: Lazy<A>, computed: bool)

  /** `invoke()`: computes and caches on first use, reads the cache after. */
  function Invoke<A>(l: Lazy<A>): (r: Forced<A>)
    ensures r.value == Value(l)
    ensures r.next.Evaluated? && Value(r.next) == Value(l)
    ensures r.computed <==> l.Unevaluated?
  {
    match l
    case Unevaluated(f) =>
      var v := f();
      Forced(v, Evaluated(v), true)
    case Evaluated(v) => Forced(v, l, false)
  }

  /** A second `invoke()` returns the same value, does not compute again and
      leaves the thunk as it was. */
  lemma InvokeIsMemoized<A>(l: Lazy<A>)
    ensures Invoke(Invoke(l).next).value == Invoke(l).value
    ensures !Invoke(Invoke(l).next).computed
    ensures Invoke(Invoke(l).next).next == Invoke(l).next
  {
  }

  /** Forces `l` `n` times in a row, returning every value observed, the
      final state and how many times the underlying computation ran. */
  method InvokeRepeatedly<A>(l: Lazy<A>, n: nat) returns (values: seq<A>, last: Lazy<A>, computations: nat)
    ensures |values| == n
    ensures forall i :: 0 <= i < n ==> values[i] == Value(l)
    ensures Value(last) == Value(l)
    ensures computations <= 1
    ensures computations == (if n > 0 && l.Unevaluated? then 1 else 0)
    ensures n > 0 ==> last.Evaluated?
  {
    values, last, computations := [], l, 0;
    while |values| < n
      invariant |values| <= n
      invariant forall i :: 0 <= i < |values| ==> values[i] == Value(l)
      invariant Value(last) == Value(l)
      invariant |values| > 0 ==> last.Evaluated?
      invariant computations == (if |values| > 0 && l.Unevaluated? then 1 else 0)
      invariant |values| == 0 ==> last == l
    {
      var r := Invoke(last);
      if r.computed {
        computations := computations + 1;
      }
      values, last := values + [r.value], r.next;
    }
  }

  /** `map(f)`: a new, not yet forced thunk for `f` of the receiver's value. */
  function Map<A, B>(l: Lazy<A>, f: A -> B): (r: Lazy<B>)
    ensures r.Unevaluated?
    ensures Value(r) == f(Value(l))
  {
    Unevaluated(() => f(Value(l)))
  }

  /** `flatMap(f)`: a new, not yet forced thunk for the value of `f`'s thunk. */
  function FlatMap<A, B>(l: Lazy<A>, f: A -> Lazy<B>): (r: Lazy<B>)
    ensures r.Unevaluated?
    ensures Value(r) == Value(f(Value(l)))
  {
    Unevaluated(() => Value(f(Value(l))))
  }

  /** Mapping a thunk before or after it is forced gives the same value:
      the memo is invisible to `map` and `flatMap`. */
  lemma MapIgnoresMemo<A, B>(l: Lazy<A>, f: A -> B, g: A -> Lazy<B>)
    ensures Value(Map(Invoke(l).next, f)) == Value(Map(l, f))
    ensures Value(FlatMap(Invoke(l).next, g)) == Value(FlatMap(l, g))
  {
  }

  /** Functor laws for `map`. */
  lemma MapLaws<A, B, C>(l: Lazy<A>, f: A -> B, g: B -> C)
    ensures Value(Map(l, x => x)) == Value(l)
    ensures Value(Map(Map(l, f), g)) == Value(Map(l, x => g(f(x))))
  {
  }

  /** Monad laws for `flatMap`, with an evaluated thunk as unit. */
  lemma FlatMapLaws<A, B, C>(a: A, l: Lazy<A>, f: A -> Lazy<B>, g: B -> Lazy<C>)
    ensures Value(FlatMap(Evaluated(a), f)) == Value(f(a))
    ensures Value(FlatMap(l, x => Evaluated(x))) == Value(l)
    ensures Value(FlatMap(FlatMap(l, f), g)) == Value(FlatMap(l, x => FlatMap(f(x), g)))
  {
  }

  /** What one `forEach` call observes: the effect of the branch that ran
      and the receiver's state afterwards. */
  datatype Ran<A, T> = Ran(effect: T, next: Lazy<A>)

  /** `forEach(condition, ifTrue: (A) -> Unit, ifFalse: () -> Unit)`: forces
      the receiver only when the branch that runs takes its value. */
  function ForEachValueIfTrue<A, T>(l: Lazy<A>, condition: bool, ifTrue: A -> T, ifFalse: () -> T): (r: Ran<A, T>)
    ensures r.effect == (if condition then ifTrue(Value(l)) else ifFalse())
    ensures Value(r.next) == Value(l)
    ensures r.next.Evaluated? <==> condition || l.Evaluated?
  {
    if condition then
      var forced := Invoke(l);
      Ran(ifTrue(forced.value), forced.next)
    else
      Ran(ifFalse(), l)
  }

  /** `forEach(condition, ifTrue: () -> Unit, ifFalse: (A) -> Unit)`. */
  function ForEachValueIfFalse<A, T>(l: Lazy<A>, condition: bool, ifTrue: () -> T, ifFalse: A -> T): (r: Ran<A, T>)
    ensures r.effect == (if condition then ifTrue() else ifFalse(Value(l)))
    ensures Value(r.next) == Value(l)
    ensures r.next.Evaluated? <==> !condition || l.Evaluated?
  {
    if condition then
      Ran(ifTrue(), l)
    else
      var forced := Invoke(l);
      Ran(ifFalse(forced.value), forced.next)
  }

  /** `forEach(condition, ifTrue: (A) -> Unit, ifFalse: (A) -> Unit)`. */
  function ForEachValueEither<A, T>(l: Lazy<A>, condition: bool, ifTrue: A -> T, ifFalse: A -> T): (r: Ran<A, T>)
    ensures r.effect == (if condition then ifTrue(Value(l)) else ifFalse(Value(l)))
    ensures Value(r.next) == Value(l)
    ensures r.next.Evaluated?
  {
    var forced := Invoke(l);
    if condition then Ran(ifTrue(forced.value), forced.next)
    else Ran(ifFalse(forced.value), forced.next)
  }

  /** `Lazy.lift(f)`: lifts a curried binary function to thunks. */
  function Lift<A(!new), B(!new), C>(f: A -> B -> C): (r: Lazy<A> -> Lazy<B> -> Lazy<C>)
    ensures forall a, b :: Value(r(a)(b)) == f(Value(a))(Value(b))
  {
    a => b => Unevaluated(() => f(Value(a))(Value(b)))
  }

  /** `lift` is `flatMap` over the first thunk and `map` over the second. */
  lemma LiftIsFlatMapThenMap<A(!new), B(!new), C>(f: A -> B -> C, a: Lazy<A>, b: Lazy<B>)
    ensures Value(Lift(f)(a)(b)) == Value(FlatMap(a, x => Map(b, f(x))))
  {
  }

  /** The values of a list of thunks, in order (`list.map { it() }`). */
  function Values<A>(list: seq<Lazy<A>>): (r: seq<A>)
    ensures |r| == |list|
    ensures forall i :: 0 <= i < |list| ==> r[i] == Value(list[i])
  {
    if |list| == 0 then [] else [Value(list[0])] + Values(list[1..])
  }

  /** `sequence(list)`: one unforced thunk for the list of all the values. */
  function Sequence<A>(list: seq<Lazy<A>>): (r: Lazy<seq<A>>)
    ensures r.Unevaluated?
    ensures |Value(r)| == |list|
    ensures forall i :: 0 <= i < |list| ==> Value(r)[i] == Value(list[i])
  {
    Unevaluated(() => Values(list))
  }

  /** `sequence` distributes over list concatenation. */
  lemma SequenceOfConcat<A>(xs: seq<Lazy<A>>, ys: seq<Lazy<A>>)
    ensures Value(Sequence(xs + ys)) == Value(Sequence(xs)) + Value(Sequence(ys))
  {
  }
}
