/** Distances on the integers, shared by the servo and motor arithmetic,
    and the two sequence facts the logs of the driver rely on: associativity
    of concatenation and replacing the next element after a prefix. */
module Numbers {

  function Abs(x: int): nat {
    if x < 0 then -x else x
  }

  function Dist(x: int, y: int): nat {
    Abs(x - y)
  }

  /** x lies between a and b, in either order. */
  predicate Between(x: int, a: int, b: int) {
    (a <= x <= b) || (b <= x <= a)
  }

  /** Logs are extended by concatenation, which is associative. */
  lemma AppendAssoc<T>(a: seq<T>, b: seq<T>, c: seq<T>)
    ensures (a + b) + c == a + (b + c)
  {
  }

  /** Overwriting the first element after a prefix `done` of s extends the
      prefix by the new element. */
  lemma SpliceNext<T>(done: seq<T>, s: seq<T>, x: T)
    requires |done| < |s|
    ensures (done + s[|done|..])[|done| := x] == (done + [x]) + s[|done| + 1..]
  {
  }
}
