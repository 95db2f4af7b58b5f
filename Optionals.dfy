/** A value-level stand-in for java.util.Optional: present with one value, or empty. */
module Optionals {

  datatype Optional<T> = Empty | Of(value: T)

  /** Optional.map: applies `f` to a present value, keeps an empty one empty. */
  function Map<T, U>(o: Optional<T>, f: T -> U): (r: Optional<U>)
    ensures r.Of? <==> o.Of?
    ensures o.Of? ==> r.value == f(o.value)
  {
    match o
    case Empty => Empty
    case Of(v) => Of(f(v))
  }
}
