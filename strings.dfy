/** The two JavaScript string builtins the search uses, restricted to ASCII case mapping. */
module Strings {

  predicate IsUpper(c: char) {
    'A' <= c <= 'Z'
  }

  function LowerChar(c: char): (d: char)
    ensures !IsUpper(d)
    ensures IsUpper(c) ==> d as int == c as int + 32
    ensures !IsUpper(c) ==> d == c
  {
    if IsUpper(c) then (c as int + 32) as char else c
  }

  /** `s.toLowerCase()`, with ASCII letters as the only characters that change. */
  function Lower(s: string): (r: string)
    ensures |r| == |s|
    ensures forall i :: 0 <= i < |r| ==> !IsUpper(r[i])
    ensures forall i :: 0 <= i < |s| && !IsUpper(s[i]) ==> r[i] == s[i]
    ensures forall i :: 0 <= i < |s| && IsUpper(s[i]) ==> r[i] as int == s[i] as int + 32
  {
    seq(|s|, i requires 0 <= i < |s| => LowerChar(s[i]))
  }

  /** `q` occurs in `s` starting at position `i`. */
  predicate OccursAt(s: string, q: string, i: nat) {
    i + |q| <= |s| && s[i..i + |q|] == q
  }

  /** `s.includes(q)`: `q` occurs in `s` as a contiguous piece. */
  predicate Contains(s: string, q: string): (found: bool)
    ensures q == [] ==> found
    ensures found ==> |q| <= |s|
    ensures s == q ==> found
  {
    assert q == [] ==> OccursAt(s, q, 0);
    assert s == q ==> OccursAt(s, q, 0);
    exists i: nat :: i <= |s| && OccursAt(s, q, i)
  }

  /** A lower-cased string contains no piece with an upper-case letter in it. */
  lemma LoweredLacksUpper(s: string, q: string, j: nat)
    requires j < |q| && IsUpper(q[j])
    ensures !Contains(Lower(s), q)
  {
    var t := Lower(s);
    forall i: nat | i + |q| <= |t|
      ensures !OccursAt(t, q, i)
    {
      assert t[i..i + |q|][j] == t[i + j];
    }
  }
}
