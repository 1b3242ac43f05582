/** Files by directory and name. */
module Paths {
  datatype Path = Path(dir: string, name: string)

  predicate HasDotDot(s: string) {
    |s| >= 2 && (s[..2] == ".." || HasDotDot(s[1..]))
  }
}
