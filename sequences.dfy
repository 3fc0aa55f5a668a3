/** Facts about sequences shared by the list-editing components. */
module Sequences {

  /** `r` is obtained from `s` by deleting elements, keeping the rest in their order. */
  predicate IsSubsequence<T(==)>(r: seq<T>, s: seq<T>)
    decreases |s|
  {
    if r == [] then true
    else if s == [] then false
    else if r[0] == s[0] then IsSubsequence(r[1..], s[1..])
    else IsSubsequence(r, s[1..])
  }
}
