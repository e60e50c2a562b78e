/** Nullable values, fatal outcomes and reported errors.
    A C pointer that may be NULL becomes an `Option`; a call that ends in
    `fatal_error`/`fatal_custom_error` (which exit the process) becomes `Fatal`;
    a mapper that returns NULL after setting `*error_msg` becomes `Failure`. */
module Wrappers {

  datatype Option<+T> = None | Some(value: T)

  datatype Result<+T> = Ok(value: T) | Fatal(reason: string)

  datatype Outcome<+T> = Success(value: T) | Failure(message: string)

  /** The list `acc` already built, followed by what is still to come; a
      failure still to come is the result. */
  function Prefixed<T>(acc: seq<T>, r: Outcome<seq<T>>): Outcome<seq<T>> {
    match r
    case Failure(m) => Failure(m)
    case Success(rest) => Success(acc + rest)
  }

  /** Nothing built yet: the result is what is still to come. */
  lemma PrefixedNothing<T>(r: Outcome<seq<T>>)
    ensures Prefixed([], r) == r
  {
    if r.Success? {
      assert [] + r.value == r.value;
    }
  }

  /** Moving one more element from what is to come onto what is built. */
  lemma PrefixedStep<T>(acc: seq<T>, x: T, r: Outcome<seq<T>>)
    ensures Prefixed(acc, Prefixed([x], r)) == Prefixed(acc + [x], r)
  {
    if r.Success? {
      assert acc + ([x] + r.value) == (acc + [x]) + r.value;
    }
  }

  /** A non-empty list is its head followed by its tail. */
  lemma HeadTail<T>(s: seq<T>)
    requires |s| > 0
    ensures [s[0]] + s[1..] == s
  {
  }
}
