/** What strings must be for readers that stop at a NUL. */
module Texts {
  predicate NulFree(s: string) {
    '\0' !in s
  }
}
