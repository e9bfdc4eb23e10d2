/** Absent values and failure-carrying results. */
module Prelude {
  datatype Option<+T> = None | Some(value: T)

  datatype Result<+T, +E> = Ok(value: T) | Err(error: E)
}

/** The ASCII case folding used by the authorizer, savepoint names, the bearer-token parser
    and the log scrubber. */
module Ascii {
  function LowerChar(c: char): char {
    if 'A' <= c <= 'Z' then (c as int + 32) as char else c
  }

  // 'A' becomes 'a' and so on in order up to 'Z'; no other character changes.
  lemma LowerCharExactly()
    ensures LowerChar('A') == 'a' && LowerChar('Z') == 'z'
    ensures forall c: char :: 'A' <= c <= 'Z' ==> LowerChar(c) as int - 'a' as int == c as int - 'A' as int
    ensures forall c: char :: !('A' <= c <= 'Z') ==> LowerChar(c) == c
  {
  }

  // Rust's `to_ascii_lowercase`.
  function Lower(s: string): (r: string)
    ensures |r| == |s|
    ensures forall i :: 0 <= i < |s| ==> r[i] == LowerChar(s[i])
  {
    seq(|s|, i requires 0 <= i < |s| => LowerChar(s[i]))
  }

  // Rust's `eq_ignore_ascii_case`, byte by byte.
  predicate EqIgnoreCase(a: string, b: string) {
    |a| == |b| && forall i :: 0 <= i < |a| ==> LowerChar(a[i]) == LowerChar(b[i])
  }

  lemma EqIgnoreCaseIsLowerEq(a: string, b: string)
    ensures EqIgnoreCase(a, b) <==> Lower(a) == Lower(b)
  {
  }
}
