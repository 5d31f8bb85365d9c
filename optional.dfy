/** Model of zpc/optional.hpp: the optional value every parser returns, with the
    three combinators the engine builds on (map, flat_map and or_else). */
module Optionals {

  /** A value that may be absent; `None` is the failed parse. */
  datatype Optional<T> = None | Some(value: T)

  /** `optional::map`: empty stays empty, a present value is transformed. */
  function Map<T, U>(o: Optional<T>, f: T -> U): (r: Optional<U>)
    ensures r.Some? <==> o.Some?
    ensures o.Some? ==> r.value == f(o.value)
  {
    if o.None? then None else Some(f(o.value))
  }

  /** `optional::flat_map`: empty stays empty, a present value is handed to `f`,
      whose own optional is the answer. */
  function FlatMap<T, U>(o: Optional<T>, f: T -> Optional<U>): (r: Optional<U>)
    ensures o.None? ==> r.None?
    ensures o.Some? ==> r == f(o.value)
  {
    if o.None? then None else f(o.value)
  }

  /** `optional::or_else`: the value itself when present, else the alternative. */
  function OrElse<T>(o: Optional<T>, alternative: Optional<T>): (r: Optional<T>)
    ensures o.Some? ==> r == o
    ensures o.None? ==> r == alternative
    ensures r.Some? <==> o.Some? || alternative.Some?
  {
    if o.None? then alternative else o
  }

  /** Mapping the identity changes nothing. */
  lemma MapIdentity<T>(o: Optional<T>)
    ensures Map(o, (x: T) => x) == o
  {
  }

  /** Two maps in a row are one map of the composed function. */
  lemma MapCompose<T, U, V>(o: Optional<T>, f: T -> U, g: U -> V)
    ensures Map(Map(o, f), g) == Map(o, (x: T) => g(f(x)))
  {
  }

  /** `flat_map` with a function that always answers is `map`. */
  lemma FlatMapOfTotal<T, U>(o: Optional<T>, f: T -> U)
    ensures FlatMap(o, (x: T) => Some(f(x))) == Map(o, f)
  {
  }

  /** `or_else` chains group either way, which is what lets an ordered choice be
      read as "the first present value". */
  lemma OrElseAssociative<T>(a: Optional<T>, b: Optional<T>, c: Optional<T>)
    ensures OrElse(OrElse(a, b), c) == OrElse(a, OrElse(b, c))
  {
  }
}
