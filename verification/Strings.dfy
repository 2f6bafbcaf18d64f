/** Characters and texts, as several modules need them. */
module Strings {

  predicate IsDigit(c: char) { '0' <= c <= '9' }

  function Concat(chunks: seq<string>): string
    decreases |chunks|
  {
    if chunks == [] then "" else chunks[0] + Concat(chunks[1..])
  }
}
