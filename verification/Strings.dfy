/** Facts about concatenation shared by the log, the line reader and the formatting of integers. */
module Strings {
  lemma Associative<T>(a: seq<T>, b: seq<T>, c: seq<T>)
    ensures a + (b + c) == (a + b) + c
  {}
}
